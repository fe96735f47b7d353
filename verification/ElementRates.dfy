/** Reading the six metrics off the dictionaries of the scan, and the laws that
    tie them to each other. */
module ElementRates {
  import opened Domain
  import opened ElementMetrics
  import opened ElementScan

  ghost predicate HesitationDict(d: map<ElementId, seq<int>>, runs: seq<RunData>) {
    forall e :: (if e in d then d[e] else []) == Hesitations(runs, e)
  }

  // Adds the dwell before the first action on each element acted on.
  method AddHesitations(before: map<ElementId, seq<int>>, ghost done: seq<RunData>, r: RunData, l: Local)
    returns (samples: map<ElementId, seq<int>>)
    requires HesitationDict(before, done) && LocalIs(l, r.observations)
    ensures HesitationDict(samples, done + [r])
  {
    hide ActionDict, GazeDict, Hesitations, DwellBefore;
    samples := before;
    var rest := l.firstAction.Keys;
    while rest != {}
      invariant rest <= l.firstAction.Keys
      invariant forall e :: (if e in samples then samples[e] else []) ==
                            if e in l.firstAction.Keys - rest then Hesitations(done + [r], e) else Hesitations(done, e)
      decreases rest
    {
      var e :| e in rest;
      var moment := l.firstAction[e];
      var dwell := SumBefore(if e in l.gazeBefore then l.gazeBefore[e] else [], moment);
      SumBeforeIsDwell(r.observations, e, moment);
      TotalAppend(done, r, e);
      samples := samples[e := (if e in samples then samples[e] else []) + [dwell]];
      rest := rest - {e};
    }
    forall e
      ensures (if e in samples then samples[e] else []) == Hesitations(done + [r], e)
    {
      TotalAppend(done, r, e);
    }
  }

  // For each entry of `among`, the share that `who` makes up.
  method Rates(ghost runs: seq<RunData>, who: map<ElementId, set<RunId>>, among: map<ElementId, set<RunId>>,
               ghost whoTest: ElementId -> RunData -> bool, ghost amongTest: ElementId -> RunData -> bool)
    returns (table: map<ElementId, Row>)
    requires SetDict(who, runs, whoTest) && SetDict(among, runs, amongTest)
    ensures RateTable(table, runs, whoTest, amongTest)
  {
    hide Who, Fraction;
    table := map[];
    var rest := among.Keys;
    while rest != {}
      invariant rest <= among.Keys && table.Keys == among.Keys - rest
      invariant forall e :: e in table ==>
                  |Members(among, e)| > 0
                  && table[e] == Row(Fraction(|Members(who, e)|, |Members(among, e)|), |Members(among, e)|)
      decreases rest
    {
      var e :| e in rest;
      assert Members(among, e) == Who(runs, amongTest(e)) != {};
      var n := |among[e]|;
      table := table[e := Row(Fraction(|Members(who, e)|, n), n)];
      rest := rest - {e};
    }
  }

  // Each entry as a fraction of the total.
  method Portions(d: map<ElementId, int>, total: int, population: nat) returns (table: map<ElementId, Row>)
    requires total > 0
    ensures table.Keys == d.Keys
    ensures forall e :: e in table ==> table[e] == Row(Fraction(d[e], total), population)
  {
    hide Fraction;
    table := map[];
    var rest := d.Keys;
    while rest != {}
      invariant rest <= d.Keys && table.Keys == d.Keys - rest
      invariant forall e :: e in table ==> table[e] == Row(Fraction(d[e], total), population)
      decreases rest
    {
      var e :| e in rest;
      table := table[e := Row(Fraction(d[e], total), population)];
      rest := rest - {e};
    }
  }

  method Shares(ghost runs: seq<RunData>, g: Global, population: nat) returns (table: map<ElementId, Row>)
    requires DwellDict(g.totalDwell, runs) && g.grandDwell == GrandDwell(runs) && population == |runs|
    ensures ShareTable(table, runs)
  {
    hide Fraction, Who, TotalDwell;
    table := map[];
    if g.grandDwell > 0 {
      table := Portions(g.totalDwell, g.grandDwell, population);
    }
  }

  function FirstLookers(d: FirstDict, e: ElementId): set<RunId> {
    set id | id in d && d[id].1 == e
  }

  lemma FirstLookersAre(d: FirstDict, runs: seq<RunData>, e: ElementId)
    requires FirstsAre(d, runs)
    ensures FirstLookers(d, e) == Who(runs, Looking()(e))
  {
    forall i | 0 <= i < |runs|
      ensures FirstLooksAt(runs[i].observations, e) <==> runs[i].id in d && d[runs[i].id].1 == e
    {
      FirstGazeLooks(runs[i].observations, FirstOf(d, runs[i].id), e);
    }
    hide FirstLooksAt, FirstGazeIs;
    forall id | id in FirstLookers(d, e)
      ensures id in Who(runs, Looking()(e))
    {
      var i :| 0 <= i < |runs| && runs[i].id == id;
      assert Looking()(e)(runs[i]);
    }
  }

  lemma OneMoreLooker(d: FirstDict, rest: set<RunId>, id: RunId, f: ElementId)
    requires rest <= d.Keys && id in rest
    ensures FirstLookers(d - (rest - {id}), f) == FirstLookers(d - rest, f) + if f == d[id].1 then {id} else {}
    ensures id !in FirstLookers(d - rest, f)
  {}

  lemma NoLookers(d: FirstDict, f: ElementId)
    ensures FirstLookers(d - d.Keys, f) == {}
  {}

  // Counts, over the participants that gazed at all, the element gazed at first.
  method CountFirsts(d: FirstDict) returns (counts: map<ElementId, nat>)
    ensures forall e :: (e in counts <==> FirstLookers(d, e) != {}) && (e in counts ==> counts[e] == |FirstLookers(d, e)|)
  {
    hide FirstLookers;
    counts := map[];
    var rest := d.Keys;
    forall f ensures FirstLookers(d - rest, f) == {} { NoLookers(d, f); }
    while rest != {}
      invariant rest <= d.Keys
      invariant forall e :: (if e in counts then counts[e] else 0) == |FirstLookers(d - rest, e)|
      invariant forall e :: e in counts ==> counts[e] > 0
      decreases rest
    {
      var id :| id in rest;
      var e := d[id].1;
      forall f
        ensures |FirstLookers(d - (rest - {id}), f)| == |FirstLookers(d - rest, f)| + if f == e then 1 else 0
      {
        OneMoreLooker(d, rest, id, f);
      }
      counts := counts[e := (if e in counts then counts[e] else 0) + 1];
      rest := rest - {id};
    }
    assert d - {} == d;
  }

  method FirstRates(ghost runs: seq<RunData>, d: FirstDict, population: nat) returns (table: map<ElementId, Row>)
    requires FirstsAre(d, runs) && population == |runs|
    ensures FirstTable(table, runs)
  {
    hide Fraction, FirstsAre, Who, FirstLookers;
    var counts := CountFirsts(d);
    forall e
      ensures FirstLookers(d, e) == Who(runs, Looking()(e))
    {
      FirstLookersAre(d, runs, e);
    }
    table := map[];
    if population > 0 {
      table := map e | e in counts :: Row(Fraction(counts[e], population), population);
    } else {
      NobodyLooks(runs, d);
    }
  }

  lemma NobodyLooks(runs: seq<RunData>, d: FirstDict)
    requires runs == []
    ensures forall e :: Who(runs, Looking()(e)) == {}
  {}

  method HesitationRates(ghost runs: seq<RunData>, samples: map<ElementId, seq<int>>) returns (table: map<ElementId, Row>)
    requires HesitationDict(samples, runs)
    ensures HesitationTable(table, runs)
  {
    table := map e | e in samples && samples[e] != [] :: Row(Fraction(SumInts(samples[e]), |samples[e]|), |samples[e]|);
    hide Fraction, SumInts;
  }

  ghost predicate InteractionsAre(i1: map<ElementId, set<RunId>>, i2: map<ElementId, set<RunId>>, g2: map<ElementId, set<RunId>>, runs: seq<RunData>) {
    SetDict(i1, runs, Acting(1)) && SetDict(i2, runs, Acting(2)) && SetDict(g2, runs, Gazing(2))
  }

  lemma Qualifies(l: Local, r: RunData)
    requires LocalIs(l, r.observations)
    ensures forall e: ElementId :: e in l.actions.Keys <==> Acting(1)(e)(r)
    ensures forall e: ElementId :: e in (set f | f in l.actions && l.actions[f] >= 2) <==> Acting(2)(e)(r)
    ensures forall e: ElementId :: e in (set f | f in l.gazes && l.gazes[f] >= 2) <==> Gazing(2)(e)(r)
  {
    hide ActionCount, GazeCount, FirstActionDict, GazeListDict;
  }

  // Adds the participant to the entries of the elements it qualifies for.
  method AddQualified(d: map<ElementId, set<RunId>>, ghost done: seq<RunData>, r: RunData, elements: set<ElementId>,
                      ghost f: ElementId -> RunData -> bool)
    returns (j: map<ElementId, set<RunId>>)
    requires SetDict(d, done, f) && forall e: ElementId :: e in elements <==> f(e)(r)
    ensures SetDict(j, done + [r], f)
  {
    j := AddToAll(d, elements, r.id);
    AddedAll(d, j, done, r, f, elements);
  }

  // What the participant's own counts add to the population's dictionaries.
  method AddInteractions(i1: map<ElementId, set<RunId>>, i2: map<ElementId, set<RunId>>, g2: map<ElementId, set<RunId>>,
                         ghost done: seq<RunData>, r: RunData, l: Local)
    returns (j1: map<ElementId, set<RunId>>, j2: map<ElementId, set<RunId>>, h2: map<ElementId, set<RunId>>)
    requires InteractionsAre(i1, i2, g2, done) && LocalIs(l, r.observations)
    ensures InteractionsAre(j1, j2, h2, done + [r])
  {
    Qualifies(l, r);
    hide SetDict, LocalIs, Acting, Gazing;
    j1 := AddQualified(i1, done, r, l.actions.Keys, Acting(1));
    j2 := AddQualified(i2, done, r, (set e | e in l.actions && l.actions[e] >= 2), Acting(2));
    h2 := AddQualified(g2, done, r, (set e | e in l.gazes && l.gazes[e] >= 2), Gazing(2));
  }

  // All six metrics from one scan of the data.
  method ElementInteractionMetrics(runs: seq<RunData>) returns (t: Tables)
    requires DistinctRuns(runs)
    ensures Means(t, runs)
  {
    hide GlobalIs, SetDict, HesitationDict, InteractionsAre, LocalIs, DwellDict, FirstsAre;
    var g := Global(map[], map[], map[], 0, map[]);
    var interacted, interactedTwice, gazedTwice: map<ElementId, set<RunId>> := map[], map[], map[];
    var samples: map<ElementId, seq<int>> := map[];
    EmptyDicts();
    for k := 0 to |runs|
      invariant GlobalIs(g, runs[..k])
      invariant InteractionsAre(interacted, interactedTwice, gazedTwice, runs[..k])
      invariant HesitationDict(samples, runs[..k])
    {
      assert runs[..k + 1] == runs[..k] + [runs[k]];
      var l: Local;
      g, l := ScanRun(runs[..k], runs[k], g);
      interacted, interactedTwice, gazedTwice := AddInteractions(interacted, interactedTwice, gazedTwice, runs[..k], runs[k], l);
      samples := AddHesitations(samples, runs[..k], runs[k], l);
    }
    assert runs[..|runs|] == runs;
    OpenGlobal(g, runs);
    OpenInteractions(interacted, interactedTwice, gazedTwice, runs);
    var click := Rates(runs, interacted, g.exposed, Acting(1), Touching());
    var repeated := Rates(runs, interactedTwice, g.exposed, Acting(2), Touching());
    var revisit := Rates(runs, gazedTwice, g.gazed, Gazing(2), Gazing(1));
    var share := Shares(runs, g, |runs|);
    var first := FirstRates(runs, g.firstGaze, |runs|);
    var hesitation := HesitationRates(runs, samples);
    t := Tables(click, repeated, revisit, share, first, hesitation);
  }

  lemma EmptyDicts()
    ensures GlobalIs(Global(map[], map[], map[], 0, map[]), [])
    ensures InteractionsAre(map[], map[], map[], [])
    ensures HesitationDict(map[], [])
  {}

  lemma OpenGlobal(g: Global, runs: seq<RunData>)
    requires GlobalIs(g, runs)
    ensures SetDict(g.exposed, runs, Touching()) && SetDict(g.gazed, runs, Gazing(1)) && FirstsAre(g.firstGaze, runs)
    ensures DwellDict(g.totalDwell, runs) && g.grandDwell == GrandDwell(runs)
  {}

  lemma OpenInteractions(i1: map<ElementId, set<RunId>>, i2: map<ElementId, set<RunId>>, g2: map<ElementId, set<RunId>>, runs: seq<RunData>)
    requires InteractionsAre(i1, i2, g2, runs)
    ensures SetDict(i1, runs, Acting(1)) && SetDict(i2, runs, Acting(2)) && SetDict(g2, runs, Gazing(2))
  {}

  // ---- laws ----

  lemma {:induction false} TouchedMore(obs: seq<Event>, e: ElementId)
    ensures ActionCount(obs, e) + GazeCount(obs, e) <= TouchCount(obs, e)
  {
    if obs != [] { TouchedMore(obs[..|obs| - 1], e); }
  }

  lemma WhoSubset(runs: seq<RunData>, p: RunData -> bool, q: RunData -> bool)
    requires forall r :: p(r) ==> q(r)
    ensures Who(runs, p) <= Who(runs, q) && |Who(runs, p)| <= |Who(runs, q)|
  {
    var a, b := Who(runs, p), Who(runs, q);
    assert b == a + (b - a);
  }

  lemma FractionOrder(a: int, b: int, n: int)
    requires a <= b && n > 0
    ensures Fraction(a, n) <= Fraction(b, n)
  {
    assert b as real / n as real - a as real / n as real == (b - a) as real / n as real;
  }

  lemma FractionEnds(n: int)
    requires n > 0
    ensures Fraction(0, n) == 0.0 && Fraction(n, n) == 1.0
  {}

  lemma FractionLaws(a: int, b: int, n: int)
    requires 0 <= a <= b <= n && n > 0
    ensures 0.0 <= Fraction(a, n) <= Fraction(b, n) <= 1.0
  {
    hide Fraction;
    FractionEnds(n);
    FractionOrder(0, a, n);
    FractionOrder(a, b, n);
    FractionOrder(b, n, n);
  }

  lemma QualifyOrdered(runs: seq<RunData>, e: ElementId)
    ensures |Who(runs, Acting(2)(e))| <= |Who(runs, Acting(1)(e))| <= |Who(runs, Touching()(e))|
    ensures |Who(runs, Gazing(2)(e))| <= |Who(runs, Gazing(1)(e))| && Who(runs, Gazing(1)(e)) <= Who(runs, Touching()(e))
  {
    forall r: RunData
      ensures ActionCount(r.observations, e) + GazeCount(r.observations, e) <= TouchCount(r.observations, e)
    {
      TouchedMore(r.observations, e);
    }
    hide Who, ActionCount, GazeCount, TouchCount;
    WhoSubset(runs, Acting(2)(e), Acting(1)(e));
    WhoSubset(runs, Acting(1)(e), Touching()(e));
    WhoSubset(runs, Gazing(2)(e), Gazing(1)(e));
    WhoSubset(runs, Gazing(1)(e), Touching()(e));
  }

  lemma RateEntry(table: map<ElementId, Row>, runs: seq<RunData>, who: ElementId -> RunData -> bool, among: ElementId -> RunData -> bool, e: ElementId)
    requires RateTable(table, runs, who, among)
    ensures e in table <==> Who(runs, among(e)) != {}
    ensures e in table ==> |Who(runs, among(e))| > 0
                           && table[e].value == Fraction(|Who(runs, who(e))|, |Who(runs, among(e))|)
  {
    hide Who, Fraction;
  }

  // The rates of one element, in the order their definitions promise.
  predicate Ordered(t: Tables, e: ElementId) {
    && (e in t.clickRate <==> e in t.repeatedRate)
    && (e in t.clickRate && e in t.repeatedRate ==>
          0.0 <= t.repeatedRate[e].value <= t.clickRate[e].value <= 1.0)
    && (e in t.revisitRate ==> e in t.clickRate && 0.0 <= t.revisitRate[e].value <= 1.0)
  }

  // Clicking twice implies clicking, and clicking implies exposure: for every
  // element, repeated rate <= click rate <= 1; and revisit rate <= 1.
  lemma RatesOrdered(runs: seq<RunData>, t: Tables, e: ElementId)
    requires Means(t, runs)
    ensures Ordered(t, e)
  {
    hide Fraction, Who, RateTable, ShareTable, FirstTable, HesitationTable, Acting, Gazing, Touching;
    QualifyOrdered(runs, e);
    RateEntry(t.clickRate, runs, Acting(1), Touching(), e);
    RateEntry(t.repeatedRate, runs, Acting(2), Touching(), e);
    RateEntry(t.revisitRate, runs, Gazing(2), Gazing(1), e);
    if e in t.clickRate {
      FractionLaws(|Who(runs, Acting(2)(e))|, |Who(runs, Acting(1)(e))|, |Who(runs, Touching()(e))|);
    }
    if e in t.revisitRate {
      FractionLaws(|Who(runs, Gazing(2)(e))|, |Who(runs, Gazing(1)(e))|, |Who(runs, Gazing(1)(e))|);
    }
  }

  // ---- sums over the elements ----

  // `es` lists the keys of a table, each once.
  ghost predicate Lists(es: seq<ElementId>, keys: set<ElementId>) {
    (forall i, j :: 0 <= i < j < |es| ==> es[i] != es[j]) && forall e :: e in es <==> e in keys
  }

  function SumValues(table: map<ElementId, Row>, es: seq<ElementId>): real
    requires forall e :: e in es ==> e in table
  {
    if es == [] then 0.0
    else
      assert es[|es| - 1] in es;
      SumValues(table, es[..|es| - 1]) + table[es[|es| - 1]].value
  }

  function SumTotals(es: seq<ElementId>, f: ElementId -> int): int {
    if es == [] then 0 else SumTotals(es[..|es| - 1], f) + f(es[|es| - 1])
  }

  function Dwelling(runs: seq<RunData>): ElementId -> int {
    (e: ElementId) => TotalDwell(runs, e)
  }

  function DwellingOne(obs: seq<Event>): ElementId -> int {
    (e: ElementId) => Dwell(obs, e)
  }

  lemma {:induction false} SumAdds(es: seq<ElementId>, f: ElementId -> int, g: ElementId -> int, h: ElementId -> int)
    requires forall e :: f(e) == g(e) + h(e)
    ensures SumTotals(es, f) == SumTotals(es, g) + SumTotals(es, h)
  {
    if es != [] { SumAdds(es[..|es| - 1], f, g, h); }
  }

  // Adding an amount at one listed element adds it once to the sum.
  lemma {:induction false} SumOnce(es: seq<ElementId>, f: ElementId -> int, at: ElementId, amount: int)
    requires forall i, j :: 0 <= i < j < |es| ==> es[i] != es[j]
    requires forall e :: f(e) == if e == at then amount else 0
    ensures SumTotals(es, f) == if at in es then amount else 0
  {
    if es != [] {
      var init := es[..|es| - 1];
      SumOnce(init, f, at, amount);
      assert es == init + [es[|es| - 1]];
    }
  }

  // Whatever was looked at is listed, so the listed dwell is all of it.
  lemma {:induction false} DwellPartition(es: seq<ElementId>, obs: seq<Event>)
    requires forall i, j :: 0 <= i < j < |es| ==> es[i] != es[j]
    requires forall e :: GazeCount(obs, e) > 0 ==> e in es
    ensures SumTotals(es, DwellingOne(obs)) == AnyDwell(obs)
  {
    if obs == [] {
      SumOnce(es, DwellingOne([]), 0, 0);
    } else {
      var init, o := obs[..|obs| - 1], obs[|obs| - 1];
      DwellPartition(es, init);
      var at, amount := if o.element.Some? then o.element.value else 0, if o.kind == Gaze && o.element.Some? then DwellOf(o) else 0;
      var h: ElementId -> int := (e: ElementId) => if e == at then amount else 0;
      SumOnce(es, h, at, amount);
      SumAdds(es, DwellingOne(obs), DwellingOne(init), h);
      if o.kind == Gaze && o.element.Some? { assert GazeCount(obs, at) > 0; }
    }
  }

  lemma {:induction false} TotalPartition(es: seq<ElementId>, runs: seq<RunData>)
    requires forall i, j :: 0 <= i < j < |es| ==> es[i] != es[j]
    requires forall i, e :: 0 <= i < |runs| && GazeCount(runs[i].observations, e) > 0 ==> e in es
    ensures SumTotals(es, Dwelling(runs)) == GrandDwell(runs)
  {
    if runs == [] {
      SumOnce(es, Dwelling([]), 0, 0);
    } else {
      var init := runs[..|runs| - 1];
      TotalPartition(es, init);
      DwellPartition(es, runs[|runs| - 1].observations);
      SumAdds(es, Dwelling(runs), Dwelling(init), DwellingOne(runs[|runs| - 1].observations));
    }
  }

  lemma FractionAdds(a: int, b: int, n: int)
    requires n > 0
    ensures Fraction(a + b, n) == Fraction(a, n) + Fraction(b, n)
  {}

  lemma {:induction false} SumOfFractions(table: map<ElementId, Row>, es: seq<ElementId>, f: ElementId -> int, n: int)
    requires n > 0 && forall e :: e in es ==> e in table && table[e].value == Fraction(f(e), n)
    ensures SumValues(table, es) == Fraction(SumTotals(es, f), n)
  {
    hide Fraction;
    if es == [] {
      FractionEnds(n);
    } else {
      assert es[|es| - 1] in es;
      SumOfFractions(table, es[..|es| - 1], f, n);
      FractionAdds(SumTotals(es[..|es| - 1], f), f(es[|es| - 1]), n);
    }
  }

  lemma GazedIsListed(runs: seq<RunData>, i: nat, e: ElementId)
    requires i < |runs| && GazeCount(runs[i].observations, e) > 0
    ensures Who(runs, Gazing(1)(e)) != {}
  {
    assert Gazing(1)(e)(runs[i]) && runs[i].id in Who(runs, Gazing(1)(e));
  }

  // When any time was spent looking, the attention shares of the elements add
  // up to exactly 1.
  lemma SharesSumToOne(runs: seq<RunData>, t: Tables, es: seq<ElementId>)
    requires Means(t, runs) && GrandDwell(runs) > 0 && Lists(es, t.attentionShare.Keys)
    ensures SumValues(t.attentionShare, es) == 1.0
  {
    forall i, e | 0 <= i < |runs| && GazeCount(runs[i].observations, e) > 0
      ensures e in es
    {
      hide Who, Gazing, RateTable, FirstTable, HesitationTable;
      GazedIsListed(runs, i, e);
    }
    hide Who, Gazing, RateTable, FirstTable, HesitationTable;
    TotalPartition(es, runs);
    SumOfFractions(t.attentionShare, es, Dwelling(runs), GrandDwell(runs));
    FractionEnds(GrandDwell(runs));
  }

  // ---- first attention ----

  ghost function GazedAtAll(): RunData -> bool {
    (r: RunData) => exists i :: 0 <= i < |r.observations| && r.observations[i].kind == Gaze && r.observations[i].element.Some?
  }

  lemma LooksIffGazed(obs: seq<Event>)
    ensures (exists i :: 0 <= i < |obs| && obs[i].kind == Gaze && obs[i].element.Some?) <==> exists e :: FirstLooksAt(obs, e)
  {
    var first := FindFirstGaze(obs);
    if first.Some? { FirstGazeLooks(obs, first, first.value.1); }
  }

  lemma {:induction false} FindFirstGaze(obs: seq<Event>) returns (first: Option<(int, ElementId)>)
    ensures FirstGazeIs(obs, first)
  {
    if obs == [] {
      first := None;
    } else {
      var init, o := obs[..|obs| - 1], obs[|obs| - 1];
      var before := FindFirstGaze(init);
      FirstGazeStep(init, o, before);
      assert init + [o] == obs;
      first := if o.kind == Gaze && o.element.Some? && (before.None? || o.sequenceNo < before.value.0)
               then Some((o.sequenceNo, o.element.value)) else before;
    }
  }

  lemma OneFirst(obs: seq<Event>, d: ElementId, e: ElementId)
    requires FirstLooksAt(obs, d) && FirstLooksAt(obs, e)
    ensures d == e
  {
    var first := FindFirstGaze(obs);
    FirstGazeLooks(obs, first, d);
    FirstGazeLooks(obs, first, e);
  }

  ghost function LookersAt(runs: seq<RunData>): ElementId -> int {
    (e: ElementId) => |Who(runs, Looking()(e))|
  }

  ghost function LooksOne(r: RunData): ElementId -> int {
    (e: ElementId) => if FirstLooksAt(r.observations, e) then 1 else 0
  }

  // One more participant, with an id of its own.
  lemma WhoCountAppend(runs: seq<RunData>, x: RunData, p: RunData -> bool)
    requires DistinctRuns(runs + [x])
    ensures |Who(runs + [x], p)| == |Who(runs, p)| + if p(x) then 1 else 0
  {
    WhoAppend(runs, x, p);
    forall i | 0 <= i < |runs|
      ensures runs[i].id != x.id
    {
      assert (runs + [x])[i].id != (runs + [x])[|runs|].id;
    }
  }

  // Each participant that gazed at anything is counted at exactly one element.
  lemma {:induction false} FirstPartition(es: seq<ElementId>, runs: seq<RunData>)
    requires DistinctRuns(runs) && forall i, j :: 0 <= i < j < |es| ==> es[i] != es[j]
    requires forall i, e :: 0 <= i < |runs| && FirstLooksAt(runs[i].observations, e) ==> e in es
    ensures SumTotals(es, LookersAt(runs)) == |Who(runs, GazedAtAll())|
  {
    if runs == [] {
      forall e
        ensures LookersAt(runs)(e) == 0
      {
        assert Who(runs, Looking()(e)) == {};
      }
      SumOnce(es, LookersAt(runs), 0, 0);
    } else {
      var init, x := runs[..|runs| - 1], runs[|runs| - 1];
      assert runs == init + [x];
      FirstPartition(es, init);
      WhoCountAppend(init, x, GazedAtAll());
      LooksIffGazed(x.observations);
      forall e
        ensures LookersAt(runs)(e) == LookersAt(init)(e) + LooksOne(x)(e)
      {
        WhoCountAppend(init, x, Looking()(e));
      }
      SumAdds(es, LookersAt(runs), LookersAt(init), LooksOne(x));
      LooksOnce(es, x);
    }
  }

  lemma LooksOnce(es: seq<ElementId>, x: RunData)
    requires forall i, j :: 0 <= i < j < |es| ==> es[i] != es[j]
    requires forall e :: FirstLooksAt(x.observations, e) ==> e in es
    ensures SumTotals(es, LooksOne(x)) == if GazedAtAll()(x) then 1 else 0
  {
    LooksIffGazed(x.observations);
    if e :| FirstLooksAt(x.observations, e) {
      forall d
        ensures LooksOne(x)(d) == if d == e then 1 else 0
      {
        if FirstLooksAt(x.observations, d) { OneFirst(x.observations, d, e); }
      }
      SumOnce(es, LooksOne(x), e, 1);
    } else {
      SumOnce(es, LooksOne(x), 0, 0);
    }
  }

  // The first-attention rates add up to the fraction of participants that
  // looked at any element at all.
  lemma FirstRatesSum(runs: seq<RunData>, t: Tables, es: seq<ElementId>)
    requires Means(t, runs) && DistinctRuns(runs) && runs != [] && Lists(es, t.firstAttentionRate.Keys)
    ensures SumValues(t.firstAttentionRate, es) == Fraction(|Who(runs, GazedAtAll())|, |runs|)
  {
    forall i, e | 0 <= i < |runs| && FirstLooksAt(runs[i].observations, e)
      ensures e in es
    {
      assert Looking()(e)(runs[i]) && runs[i].id in Who(runs, Looking()(e));
    }
    hide Who, FirstLooksAt;
    FirstPartition(es, runs);
    SumOfFractions(t.firstAttentionRate, es, LookersAt(runs), |runs|);
  }
}
