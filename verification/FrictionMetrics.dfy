/** Dead ends and excess effort, and what they say about simulated runs. */
module FrictionMetrics {
  import opened Basics
  import opened Domain
  import opened EventLog
  import opened ElementMetrics
  import opened ElementScan
  import opened ElementRates
  import opened ElementTimes
  import opened SimulationGraph
  import opened SimulationLog
  import opened SimulationBaseline
  import opened GraphSearch

  predicate EntersScreen(o: Event) {
    o.kind == ScreenEnter && o.screen.Some?
  }

  function EnterCount(obs: seq<Event>, sid: ScreenId): nat {
    if obs == [] then 0
    else EnterCount(obs[..|obs| - 1], sid) + if EntersScreen(obs[|obs| - 1]) && obs[|obs| - 1].screen == Some(sid) then 1 else 0
  }

  // Event i is the screen entry with the highest non-negative sequence number,
  // the earliest listed of equals.
  ghost predicate IsLastEntry(obs: seq<Event>, i: nat) {
    && i < |obs| && EntersScreen(obs[i]) && obs[i].sequenceNo >= 0
    && (forall j :: 0 <= j < |obs| && EntersScreen(obs[j]) ==>
          if j < i then obs[j].sequenceNo < obs[i].sequenceNo else obs[j].sequenceNo <= obs[i].sequenceNo)
  }

  ghost predicate EndsOn(obs: seq<Event>, sid: ScreenId) {
    exists i :: 0 <= i < |obs| && IsLastEntry(obs, i) && obs[i].screen == Some(sid)
  }

  ghost function Reaching(): ScreenId -> RunData -> bool {
    (sid: ScreenId) => (r: RunData) => EnterCount(r.observations, sid) >= 1
  }

  ghost function StuckOn(): ScreenId -> RunData -> bool {
    (sid: ScreenId) => (r: RunData) => !r.completed && EndsOn(r.observations, sid)
  }

  // The last entry found so far: its sequence number and its screen.
  ghost predicate LastIs(obs: seq<Event>, last: Option<(int, ScreenId)>) {
    if last.None? then forall i :: 0 <= i < |obs| && EntersScreen(obs[i]) ==> obs[i].sequenceNo < 0
    else exists i :: 0 <= i < |obs| && IsLastEntry(obs, i) && obs[i].sequenceNo == last.value.0 && obs[i].screen == Some(last.value.1)
  }

  lemma LastStep(obs: seq<Event>, o: Event, last: Option<(int, ScreenId)>)
    requires LastIs(obs, last)
    ensures LastIs(obs + [o],
                   if EntersScreen(o) && o.sequenceNo > (if last.Some? then last.value.0 else -1)
                   then Some((o.sequenceNo, o.screen.value)) else last)
  {
    var all := obs + [o];
    if EntersScreen(o) && o.sequenceNo > (if last.Some? then last.value.0 else -1) {
      assert IsLastEntry(all, |obs|);
    } else if last.Some? {
      var i :| 0 <= i < |obs| && IsLastEntry(obs, i) && obs[i].sequenceNo == last.value.0 && obs[i].screen == Some(last.value.1);
      assert all[i] == obs[i] && IsLastEntry(all, i);
    }
  }

  lemma LastEnds(obs: seq<Event>, last: Option<(int, ScreenId)>, sid: ScreenId)
    requires LastIs(obs, last)
    ensures EndsOn(obs, sid) <==> last.Some? && last.value.1 == sid
  {
    if last.Some? {
      var i :| 0 <= i < |obs| && IsLastEntry(obs, i) && obs[i].sequenceNo == last.value.0 && obs[i].screen == Some(last.value.1);
      forall j | 0 <= j < |obs| && IsLastEntry(obs, j)
        ensures j == i
      {}
    }
  }

  lemma ReachedStep(reached: map<ScreenId, set<RunId>>, done: seq<RunData>, r: RunData, i: nat)
    requires i < |r.observations| && SetDict(reached, done + [Prefix(r, i)], Reaching())
    ensures var o := r.observations[i];
            SetDict(if EntersScreen(o) then AddTo(reached, o.screen.value, r.id) else reached, done + [Prefix(r, i + 1)], Reaching())
  {
    var o := r.observations[i];
    PrefixNext(r, i);
    DictStep(reached, done, Prefix(r, i), Prefix(r, i + 1), Reaching(), if EntersScreen(o) then o.screen else None);
  }

  // One participant's entries: the screens reached, and the last one entered.
  method ScanEntries(ghost done: seq<RunData>, r: RunData, before: map<ScreenId, set<RunId>>)
    returns (reached: map<ScreenId, set<RunId>>, last: Option<(int, ScreenId)>)
    requires SetDict(before, done, Reaching())
    ensures SetDict(reached, done + [r], Reaching()) && LastIs(r.observations, last)
  {
    reached, last := before, None;
    DictStart(reached, done, Prefix(r, 0), Reaching());
    hide SetDict, LastIs;
    assert LastIs([], None) by { NoEntries(); }
    for i := 0 to |r.observations|
      invariant SetDict(reached, done + [Prefix(r, i)], Reaching()) && LastIs(r.observations[..i], last)
    {
      var o := r.observations[i];
      ReachedStep(reached, done, r, i);
      LastStep(r.observations[..i], o, last);
      PrefixNext(r, i);
      if EntersScreen(o) {
        reached := AddTo(reached, o.screen.value, r.id);
        if o.sequenceNo > (if last.Some? then last.value.0 else -1) {
          last := Some((o.sequenceNo, o.screen.value));
        }
      }
    }
    assert r.observations[..|r.observations|] == r.observations && Prefix(r, |r.observations|) == r;
  }

  lemma NoEntries()
    ensures LastIs([], None)
  {}

  lemma StuckAdded(stuck: map<ScreenId, set<RunId>>, done: seq<RunData>, r: RunData, last: Option<(int, ScreenId)>)
    requires SetDict(stuck, done, StuckOn()) && LastIs(r.observations, last)
    ensures SetDict(if last.Some? && !r.completed then AddTo(stuck, last.value.1, r.id) else stuck, done + [r], StuckOn())
  {
    var blank := r.(observations := []);
    forall sid
      ensures EndsOn(r.observations, sid) <==> last.Some? && last.value.1 == sid
    {
      LastEnds(r.observations, last, sid);
    }
    hide EndsOn, LastIs, SetDict;
    assert forall sid :: !EndsOn([], sid) by { NothingEnds(); }
    DictStart(stuck, done, blank, StuckOn());
    DictStep(stuck, done, blank, r, StuckOn(), if last.Some? && !r.completed then Some(last.value.1) else None);
  }

  lemma NothingEnds()
    ensures forall sid :: !EndsOn([], sid)
  {}

  // For each screen some participant entered: the share of those participants
  // who did not complete and whose last screen it was.
  method DeadEndRates(runs: seq<RunData>) returns (table: map<ScreenId, Row>)
    ensures RateTable(table, runs, StuckOn(), Reaching())
  {
    hide SetDict;
    var reached, stuck: map<ScreenId, set<RunId>> := map[], map[];
    NobodyReaches();
    for k := 0 to |runs|
      invariant SetDict(reached, runs[..k], Reaching()) && SetDict(stuck, runs[..k], StuckOn())
    {
      assert runs[..k + 1] == runs[..k] + [runs[k]];
      var last: Option<(int, ScreenId)>;
      reached, last := ScanEntries(runs[..k], runs[k], reached);
      StuckAdded(stuck, runs[..k], runs[k], last);
      if last.Some? && !runs[k].completed {
        stuck := AddTo(stuck, last.value.1, runs[k].id);
      }
    }
    assert runs[..|runs|] == runs;
    table := Rates(runs, stuck, reached, StuckOn(), Reaching());
  }

  lemma NobodyReaches()
    ensures SetDict(map[], [], Reaching()) && SetDict(map[], [], StuckOn())
  {}

  // ---- entries, event by event ----

  predicate Entered(o: Event, sid: ScreenId) {
    o.kind == ScreenEnter && o.screen == Some(sid)
  }

  lemma EnterNext(obs: seq<Event>, o: Event, sid: ScreenId)
    ensures EnterCount(obs + [o], sid) == EnterCount(obs, sid) + if Entered(o, sid) then 1 else 0
  {
    assert (obs + [o])[..|obs|] == obs;
  }

  lemma {:induction false} ReachedIff(obs: seq<Event>, sid: ScreenId)
    ensures EnterCount(obs, sid) >= 1 <==> exists o :: o in obs && Entered(o, sid)
  {
    if obs != [] {
      var init, o := obs[..|obs| - 1], obs[|obs| - 1];
      ReachedIff(init, sid);
      hide EnterCount;
      assert obs == init + [o];
      EnterNext(init, o, sid);
    }
  }

  // In a log numbered upwards from 0 the screen a participant ends on is the one
  // entered last.
  lemma EndsOnLast(obs: seq<Event>, i: nat, sid: ScreenId)
    requires forall a, b :: 0 <= a < b < |obs| ==> 0 <= obs[a].sequenceNo < obs[b].sequenceNo
    requires i < |obs| && obs[i].sequenceNo >= 0 && obs[i].kind == ScreenEnter && obs[i].screen.Some?
    requires forall j :: i < j < |obs| && obs[j].kind == ScreenEnter ==> obs[j].screen.None?
    ensures EndsOn(obs, sid) <==> Entered(obs[i], sid)
  {
    assert IsLastEntry(obs, i);
    if EndsOn(obs, sid) {
      var k :| 0 <= k < |obs| && IsLastEntry(obs, k) && obs[k].screen == Some(sid);
      assert k == i;
    }
  }

  // ---- simulated runs ----

  lemma {:induction false} LastEnterEnds(es: seq<Event>, n: nat, sid: ScreenId)
    requires n <= |es| && Numbered(es) && LastEnter(es[..n]) == Some(sid)
    ensures EndsOn(es[..n], sid)
  {
    var p := es[..n];
    assert p[..n - 1] == es[..n - 1];
    if p[n - 1].kind == ScreenEnter {
      assert IsLastEntry(p, n - 1);
    } else {
      LastEnterEnds(es, n - 1, sid);
      var q := es[..n - 1];
      var i :| 0 <= i < |q| && IsLastEntry(q, i) && q[i].screen == Some(sid);
      assert p[i] == q[i] && IsLastEntry(p, i);
    }
  }

  // A simulated run that does not complete is charged as a dead end to exactly
  // one screen: the one it ended on.
  lemma ChargedToFinalScreen(cfg: Config, start: ScreenId, draws: nat -> Draw, k: nat, sid: ScreenId)
    requires Run(cfg, start, draws, k).node == End
    ensures var s := Run(cfg, start, draws, k).state;
            StuckOn()(sid)(RunData(0, s.outcome == Completed, s.events)) <==> s.outcome != Completed && sid == s.current
  {
    LogAlways(cfg, start, draws, k);
    var es := Run(cfg, start, draws, k).state.events;
    var current := Run(cfg, start, draws, k).state.current;
    assert es[..|es|] == es;
    LastEnterEnds(es, |es|, current);
    hide LogInv, Run;
    if EndsOn(es, sid) { OneEnd(es, sid, current); }
  }

  lemma OneEnd(obs: seq<Event>, a: ScreenId, b: ScreenId)
    requires EndsOn(obs, a) && EndsOn(obs, b)
    ensures a == b
  {}

  // ---- excess actions and screens ----

  function SumExcess(runs: seq<RunData>, of: seq<Event> -> int): int {
    if runs == [] then 0 else SumExcess(runs[..|runs| - 1], of) + of(runs[|runs| - 1].observations)
  }

  function ActionsOver(actions: nat): seq<Event> -> int {
    (es: seq<Event>) => EventLog.Actions(es) - actions
  }

  function ScreensOver(screens: nat): seq<Event> -> int {
    (es: seq<Event>) => EventLog.Enters(es) - screens
  }

  // Mean excess actions and screens over the population; nothing without a baseline.
  function Excess(runs: seq<RunData>, baseline: Option<(nat, nat)>): Option<(real, real)>
    requires runs != []
  {
    if baseline.None? then None
    else Some((Fraction(SumExcess(runs, ActionsOver(baseline.value.0)), |runs|),
               Fraction(SumExcess(runs, ScreensOver(baseline.value.1)), |runs|)))
  }

  // Actions performed, and screens entered, by a whole population.
  function AllActions(runs: seq<RunData>): nat {
    if runs == [] then 0 else EventLog.Actions(runs[0].observations) + AllActions(runs[1..])
  }

  function AllEnters(runs: seq<RunData>): nat {
    if runs == [] then 0 else EventLog.Enters(runs[0].observations) + AllEnters(runs[1..])
  }

  lemma {:induction false} AllNext(runs: seq<RunData>, r: RunData)
    ensures AllActions(runs + [r]) == AllActions(runs) + EventLog.Actions(r.observations)
    ensures AllEnters(runs + [r]) == AllEnters(runs) + EventLog.Enters(r.observations)
  {
    if runs != [] {
      AllNext(runs[1..], r);
      assert (runs + [r])[1..] == runs[1..] + [r];
    } else {
      assert runs + [r] == [r] && [r][1..] == [];
    }
  }

  lemma OneMore(n: nat, each: nat)
    ensures (n + 1) * each == n * each + each
  {}

  lemma {:induction false} SumsAre(runs: seq<RunData>, actions: nat, screens: nat)
    ensures SumExcess(runs, ActionsOver(actions)) == AllActions(runs) - |runs| * actions
    ensures SumExcess(runs, ScreensOver(screens)) == AllEnters(runs) - |runs| * screens
  {
    if runs != [] {
      var init, r := runs[..|runs| - 1], runs[|runs| - 1];
      SumsAre(init, actions, screens);
      hide EventLog.Actions, EventLog.Enters, AllActions, AllEnters;
      AllNext(init, r);
      assert init + [r] == runs && |runs| == |init| + 1;
      OneMore(|init|, actions);
      OneMore(|init|, screens);
    }
  }

  // The mean excess times the population is what it did in all beyond the baseline.
  lemma ExcessIs(runs: seq<RunData>, actions: nat, screens: nat)
    requires runs != []
    ensures var excess := Excess(runs, Some((actions, screens)));
            && excess.Some?
            && Times(excess.value.0, |runs| as real) == (AllActions(runs) - |runs| * actions) as real
            && Times(excess.value.1, |runs| as real) == (AllEnters(runs) - |runs| * screens) as real
  {
    SumsAre(runs, actions, screens);
    FractionTimes(SumExcess(runs, ActionsOver(actions)), |runs|);
    FractionTimes(SumExcess(runs, ScreensOver(screens)), |runs|);
    hide Fraction, Times, SumExcess;
  }

  // The observations of a simulated run that completed.
  ghost predicate CompletedRun(cfg: Config, start: ScreenId, obs: seq<Event>) {
    exists draws: nat -> Draw, k ::
      Run(cfg, start, draws, k).state.outcome == Completed && Run(cfg, start, draws, k).state.events == obs
  }

  lemma NearestUnique(g: ScreenGraph, critical: set<string>, start: ScreenId, c: nat, d: nat)
    requires Nearest(g, critical, start, c) && Nearest(g, critical, start, d)
    ensures c == d
  {
    hide HasCritical;
  }

  lemma {:induction false} SumAtLeast(runs: seq<RunData>, of: seq<Event> -> int, low: int)
    requires forall i :: 0 <= i < |runs| ==> of(runs[i].observations) >= low
    ensures SumExcess(runs, of) >= |runs| * low
    ensures SumExcess(runs, of) == |runs| * low <==> forall i :: 0 <= i < |runs| ==> of(runs[i].observations) == low
  {
    if runs != [] {
      var init := runs[..|runs| - 1];
      SumAtLeast(init, of, low);
      assert of(runs[|runs| - 1].observations) >= low;
      assert (|runs| - 1) * low + low == |runs| * low;
      assert runs == init + [runs[|runs| - 1]];
    }
  }

  lemma MeanAtLeast(sum: int, n: int, low: int)
    requires n > 0 && sum >= n * low
    ensures Fraction(sum, n) >= low as real
    ensures Fraction(sum, n) == low as real <==> sum == n * low
  {
    var w, q := n as real, Fraction(sum, n);
    assert q * w == sum as real;
    assert (n * low) as real == w * low as real;
    if q > low as real { assert (q - low as real) * w > 0.0; }
  }

  lemma MeanIsLow(runs: seq<RunData>, of: seq<Event> -> int, low: int)
    requires runs != [] && forall i :: 0 <= i < |runs| ==> of(runs[i].observations) >= low
    ensures Fraction(SumExcess(runs, of), |runs|) >= low as real
    ensures Fraction(SumExcess(runs, of), |runs|) == low as real <==>
            forall i :: 0 <= i < |runs| ==> of(runs[i].observations) == low
  {
    SumAtLeast(runs, of, low);
    MeanAtLeast(SumExcess(runs, of), |runs|, low);
  }

  // For a task finished by its critical actions, a population of completed
  // simulated runs never shows negative excess actions, and shows none exactly
  // when every run performed the d + 1 actions of the baseline. Its excess
  // screens are at least 1, since the baseline does not count the starting
  // screen, and are 1 exactly when every run entered d + 1 screens.
  lemma ExcessOfCompletedRuns(cfg: Config, start: ScreenId, runs: seq<RunData>, d: nat)
    requires cfg.graph.UniqueElements() && cfg.task.critical != {} && !cfg.task.success.Recognized()
    requires Nearest(cfg.graph, cfg.task.critical, start, d)
    requires runs != [] && forall i :: 0 <= i < |runs| ==> CompletedRun(cfg, start, runs[i].observations)
    ensures var excess := Excess(runs, Some((d + 1, d))).value;
            && excess.0 >= 0.0 && excess.1 >= 1.0
            && (excess.0 == 0.0 <==> forall i :: 0 <= i < |runs| ==> EventLog.Actions(runs[i].observations) == d + 1)
            && (excess.1 == 1.0 <==> forall i :: 0 <= i < |runs| ==> EventLog.Enters(runs[i].observations) == d + 1)
  {
    hide Nearest, Run, Fraction, SimulationGraph.Step;
    forall i | 0 <= i < |runs|
      ensures ActionsOver(d + 1)(runs[i].observations) >= 0 && ScreensOver(d)(runs[i].observations) >= 1
    {
      var draws: nat -> Draw, k :| Run(cfg, start, draws, k).state.outcome == Completed && Run(cfg, start, draws, k).state.events == runs[i].observations;
      var c := CompletionCostsBaseline(cfg, start, draws, k);
      NearestUnique(cfg.graph, cfg.task.critical, start, c, d);
    }
    hide CompletedRun;
    MeanIsLow(runs, ActionsOver(d + 1), 0);
    MeanIsLow(runs, ScreensOver(d), 1);
  }
}
