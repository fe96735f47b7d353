/** The times behind the element metrics, read off the recorded events. */
module ElementTimes {
  import opened Basics
  import opened Domain
  import opened ElementMetrics
  import opened ElementScan
  import opened ElementRates

  // ---- one more event ----

  // A gaze of v ms at an element adds v to its dwell, to the total, and to the
  // dwell before every later moment; a gaze without a duration adds nothing, and
  // neither does any other event.
  lemma OneMoreEvent(obs: seq<Event>, o: Event, e: ElementId, moment: int)
    ensures var ms := if o.kind == Gaze && o.durationMs.Some? then o.durationMs.value else 0;
            && Dwell(obs + [o], e) - Dwell(obs, e) == (if o.element == Some(e) then ms else 0)
            && AnyDwell(obs + [o]) - AnyDwell(obs) == (if o.element.Some? then ms else 0)
            && DwellBefore(obs + [o], e, moment) - DwellBefore(obs, e, moment) ==
               (if o.element == Some(e) && o.sequenceNo < moment then ms else 0)
    ensures TouchCount(obs + [o], e) == TouchCount(obs, e) + if o.element == Some(e) then 1 else 0
    ensures GazeCount(obs + [o], e) == GazeCount(obs, e) + if o.element == Some(e) && o.kind == Gaze then 1 else 0
    ensures ActionCount(obs + [o], e) == ActionCount(obs, e) + if o.element == Some(e) && o.kind.Acted? then 1 else 0
  {
    assert (obs + [o])[..|obs|] == obs;
  }

  // The first listed action on an element gives its moment.
  lemma {:induction false} FirstActionIs(obs: seq<Event>, e: ElementId, i: nat)
    requires i < |obs| && obs[i].kind.Acted? && obs[i].element == Some(e)
    requires forall j :: 0 <= j < i ==> !(obs[j].kind.Acted? && obs[j].element == Some(e))
    ensures FirstAction(obs, e) == Some(obs[i].sequenceNo)
  {
    var init := obs[..|obs| - 1];
    if i < |init| { FirstActionIs(init, e, i); } else { NoActionYet(init, e); }
  }

  lemma {:induction false} NoActionYet(obs: seq<Event>, e: ElementId)
    requires forall j :: 0 <= j < |obs| ==> !(obs[j].kind.Acted? && obs[j].element == Some(e))
    ensures FirstAction(obs, e) == None
  {
    if obs != [] { NoActionYet(obs[..|obs| - 1], e); }
  }

  // In a log whose numbers increase, the first look is the first gaze listed.
  lemma FirstLookIs(obs: seq<Event>, e: ElementId, i: nat)
    requires forall a, b :: 0 <= a < b < |obs| ==> obs[a].sequenceNo < obs[b].sequenceNo
    requires i < |obs| && obs[i].kind == Gaze && obs[i].element.Some?
    requires forall j :: 0 <= j < i ==> !(obs[j].kind == Gaze && obs[j].element.Some?)
    ensures FirstLooksAt(obs, e) <==> obs[i].element == Some(e)
  {
    assert IsFirstGaze(obs, i);
    if FirstLooksAt(obs, e) {
      var k :| 0 <= k < |obs| && IsFirstGaze(obs, k) && obs[k].element == Some(e);
      assert k == i;
    }
  }

  // ---- recorded times of a whole population ----

  // Time recorded in gazes at one element, and in gazes at any.
  function RecordedAt(obs: seq<Event>, e: ElementId): int {
    if obs == [] then 0
    else
      (if obs[0].kind == Gaze && obs[0].element == Some(e) && obs[0].durationMs.Some? then obs[0].durationMs.value else 0)
      + RecordedAt(obs[1..], e)
  }

  function Recorded(obs: seq<Event>): int {
    if obs == [] then 0
    else
      (if obs[0].kind == Gaze && obs[0].element.Some? && obs[0].durationMs.Some? then obs[0].durationMs.value else 0)
      + Recorded(obs[1..])
  }

  function AllRecordedAt(runs: seq<RunData>, e: ElementId): int {
    if runs == [] then 0 else RecordedAt(runs[0].observations, e) + AllRecordedAt(runs[1..], e)
  }

  function AllRecorded(runs: seq<RunData>): int {
    if runs == [] then 0 else Recorded(runs[0].observations) + AllRecorded(runs[1..])
  }

  lemma {:induction false} RecordedAppend(obs: seq<Event>, o: Event, e: ElementId)
    ensures RecordedAt(obs + [o], e) == RecordedAt(obs, e) + RecordedAt([o], e)
    ensures Recorded(obs + [o]) == Recorded(obs) + Recorded([o])
  {
    if obs != [] {
      RecordedAppend(obs[1..], o, e);
      assert (obs + [o])[1..] == obs[1..] + [o];
    } else {
      assert obs + [o] == [o];
    }
  }

  lemma {:induction false} DwellIsRecorded(obs: seq<Event>, e: ElementId)
    ensures Dwell(obs, e) == RecordedAt(obs, e) && AnyDwell(obs) == Recorded(obs)
  {
    if obs != [] {
      var init, o := obs[..|obs| - 1], obs[|obs| - 1];
      DwellIsRecorded(init, e);
      RecordedAppend(init, o, e);
      OneMoreEvent(init, o, e, 0);
      assert init + [o] == obs;
    }
  }

  lemma {:induction false} AllAppend(runs: seq<RunData>, r: RunData, e: ElementId)
    ensures AllRecordedAt(runs + [r], e) == AllRecordedAt(runs, e) + RecordedAt(r.observations, e)
    ensures AllRecorded(runs + [r]) == AllRecorded(runs) + Recorded(r.observations)
  {
    hide RecordedAt, Recorded;
    if runs != [] {
      AllAppend(runs[1..], r, e);
      assert (runs + [r])[1..] == runs[1..] + [r];
    } else {
      assert runs + [r] == [r];
    }
  }

  lemma {:induction false} TotalIsRecorded(runs: seq<RunData>, e: ElementId)
    ensures TotalDwell(runs, e) == AllRecordedAt(runs, e) && GrandDwell(runs) == AllRecorded(runs)
  {
    if runs != [] {
      var init, r := runs[..|runs| - 1], runs[|runs| - 1];
      TotalIsRecorded(init, e);
      hide RecordedAt, Recorded, Dwell, AnyDwell;
      DwellIsRecorded(r.observations, e);
      AllAppend(init, r, e);
      assert init + [r] == runs;
    }
  }

  lemma FractionTimes(part: int, whole: int)
    requires whole > 0
    ensures Times(Fraction(part, whole), whole as real) == part as real
  {}

  ghost predicate LooksAt(obs: seq<Event>, e: ElementId) {
    exists o :: o in obs && o.kind == Gaze && o.element == Some(e)
  }

  ghost predicate SomeoneLooks(runs: seq<RunData>, e: ElementId) {
    exists r :: r in runs && LooksAt(r.observations, e)
  }

  lemma ShareRow(runs: seq<RunData>, t: Tables, e: ElementId)
    requires Means(t, runs)
    ensures e in t.attentionShare <==> AllRecorded(runs) > 0 && SomeoneLooks(runs, e)
    ensures e in t.attentionShare ==>
              Times(t.attentionShare[e].value, AllRecorded(runs) as real) == AllRecordedAt(runs, e) as real
  {
    TotalIsRecorded(runs, e);
    hide RateTable, FirstTable, HesitationTable, Fraction, Times, TotalDwell, GrandDwell, AllRecordedAt, AllRecorded, Who, SomeoneLooks;
    if AllRecorded(runs) > 0 {
      if e in t.attentionShare { FractionTimes(TotalDwell(runs, e), GrandDwell(runs)); }
      WhoGazed(runs, e);
    }
  }

  // An element has a share exactly when someone gazed at it and some time was
  // recorded; its share, times all the time recorded, is the time recorded at it.
  lemma SharesAreTimes(runs: seq<RunData>, t: Tables, e: ElementId)
    requires Means(t, runs)
    ensures e in t.attentionShare <==> AllRecorded(runs) > 0 && SomeoneLooks(runs, e)
    ensures e in t.attentionShare ==>
              t.attentionShare[e].value * AllRecorded(runs) as real == AllRecordedAt(runs, e) as real
  {
    hide AllRecorded, AllRecordedAt, SomeoneLooks, Means;
    ShareRow(runs, t, e);
  }

  lemma WhoGazed(runs: seq<RunData>, e: ElementId)
    ensures Who(runs, Gazing(1)(e)) != {} <==> SomeoneLooks(runs, e)
  {
    hide LooksAt, GazeCount;
    if x :| x in Who(runs, Gazing(1)(e)) {
      var i :| 0 <= i < |runs| && Gazing(1)(e)(runs[i]);
      Gazed(runs[i].observations, e);
      assert runs[i] in runs;
    }
    if r :| r in runs && LooksAt(r.observations, e) {
      Gazed(r.observations, e);
      var i :| 0 <= i < |runs| && runs[i] == r;
      assert Gazing(1)(e)(runs[i]) && runs[i].id in Who(runs, Gazing(1)(e));
    }
  }

  lemma {:induction false} Gazed(obs: seq<Event>, e: ElementId)
    ensures GazeCount(obs, e) > 0 <==> LooksAt(obs, e)
  {
    if obs != [] {
      var init, o := obs[..|obs| - 1], obs[|obs| - 1];
      Gazed(init, e);
      assert obs == init + [o];
    }
  }

  // ---- hesitation ----

  // The moment of the first action on an element.
  function FirstActed(obs: seq<Event>, e: ElementId): Option<int> {
    if obs == [] then None
    else if obs[0].kind.Acted? && obs[0].element == Some(e) then Some(obs[0].sequenceNo)
    else FirstActed(obs[1..], e)
  }

  lemma {:induction false} FirstActedIs(obs: seq<Event>, e: ElementId)
    ensures FirstAction(obs, e) == FirstActed(obs, e)
  {
    FirstActedAt(obs, e);
    if i: nat :| i < |obs| && obs[i].kind.Acted? && obs[i].element == Some(e)
                 && FirstActed(obs, e) == Some(obs[i].sequenceNo)
                 && forall j :: 0 <= j < i ==> !(obs[j].kind.Acted? && obs[j].element == Some(e)) {
      FirstActionIs(obs, e, i);
    } else {
      NoActionYet(obs, e);
    }
  }

  lemma {:induction false} FirstActedAt(obs: seq<Event>, e: ElementId)
    ensures (FirstActed(obs, e) == None && forall j :: 0 <= j < |obs| ==> !(obs[j].kind.Acted? && obs[j].element == Some(e)))
            || exists i: nat :: i < |obs| && obs[i].kind.Acted? && obs[i].element == Some(e)
                                && FirstActed(obs, e) == Some(obs[i].sequenceNo)
                                && forall j :: 0 <= j < i ==> !(obs[j].kind.Acted? && obs[j].element == Some(e))
  {
    if obs != [] && !(obs[0].kind.Acted? && obs[0].element == Some(e)) {
      FirstActedAt(obs[1..], e);
      if FirstActed(obs, e).Some? {
        var i: nat :| i < |obs| - 1 && obs[1..][i].kind.Acted? && obs[1..][i].element == Some(e)
                      && FirstActed(obs, e) == Some(obs[1..][i].sequenceNo)
                      && forall j :: 0 <= j < i ==> !(obs[1..][j].kind.Acted? && obs[1..][j].element == Some(e));
        forall j | 0 <= j < i + 1
          ensures !(obs[j].kind.Acted? && obs[j].element == Some(e))
        {
          if j > 0 { assert obs[1..][j - 1] == obs[j]; }
        }
        assert obs[i + 1] == obs[1..][i];
      } else {
        forall j | 0 <= j < |obs|
          ensures !(obs[j].kind.Acted? && obs[j].element == Some(e))
        {
          if j > 0 { assert obs[1..][j - 1] == obs[j]; }
        }
      }
    }
  }

  // Time recorded in gazes at an element numbered below a moment.
  function RecordedBefore(obs: seq<Event>, e: ElementId, moment: int): int {
    if obs == [] then 0
    else
      (if obs[0].kind == Gaze && obs[0].element == Some(e) && obs[0].sequenceNo < moment && obs[0].durationMs.Some?
       then obs[0].durationMs.value else 0)
      + RecordedBefore(obs[1..], e, moment)
  }

  lemma {:induction false} BeforeAppend(obs: seq<Event>, o: Event, e: ElementId, moment: int)
    ensures RecordedBefore(obs + [o], e, moment) == RecordedBefore(obs, e, moment) + RecordedBefore([o], e, moment)
  {
    if obs != [] {
      BeforeAppend(obs[1..], o, e, moment);
      assert (obs + [o])[1..] == obs[1..] + [o];
    } else {
      assert obs + [o] == [o];
    }
  }

  lemma {:induction false} BeforeIsRecorded(obs: seq<Event>, e: ElementId, moment: int)
    ensures DwellBefore(obs, e, moment) == RecordedBefore(obs, e, moment)
  {
    if obs != [] {
      var init, o := obs[..|obs| - 1], obs[|obs| - 1];
      BeforeIsRecorded(init, e, moment);
      BeforeAppend(init, o, e, moment);
      OneMoreEvent(init, o, e, moment);
      assert init + [o] == obs;
    }
  }

  // The participants that acted on an element, and the time they all looked at it
  // before they did.
  function Actors(runs: seq<RunData>, e: ElementId): nat {
    if runs == [] then 0
    else (if FirstActed(runs[0].observations, e).Some? then 1 else 0) + Actors(runs[1..], e)
  }

  function Waited(runs: seq<RunData>, e: ElementId): int {
    if runs == [] then 0
    else
      var obs := runs[0].observations;
      (if FirstActed(obs, e).Some? then RecordedBefore(obs, e, FirstActed(obs, e).value) else 0) + Waited(runs[1..], e)
  }

  lemma {:induction false} WaitedAppend(runs: seq<RunData>, r: RunData, e: ElementId)
    ensures Actors(runs + [r], e) == Actors(runs, e) + Actors([r], e)
    ensures Waited(runs + [r], e) == Waited(runs, e) + Waited([r], e)
  {
    hide FirstActed, RecordedBefore;
    if runs != [] {
      WaitedAppend(runs[1..], r, e);
      assert (runs + [r])[1..] == runs[1..] + [r];
    } else {
      assert runs + [r] == [r];
    }
  }

  lemma {:induction false} HesitationsAreWaits(runs: seq<RunData>, e: ElementId)
    ensures |Hesitations(runs, e)| == Actors(runs, e) && SumInts(Hesitations(runs, e)) == Waited(runs, e)
  {
    if runs != [] {
      var init, r := runs[..|runs| - 1], runs[|runs| - 1];
      HesitationsAreWaits(init, e);
      hide FirstActed, RecordedBefore, FirstAction, DwellBefore;
      FirstActedIs(r.observations, e);
      if FirstActed(r.observations, e).Some? {
        var moment := FirstActed(r.observations, e).value;
        BeforeIsRecorded(r.observations, e, moment);
        SumNext(Hesitations(init, e), DwellBefore(r.observations, e, moment));
      } else {
        assert Hesitations(runs, e) == Hesitations(init, e);
      }
      WaitedAppend(init, r, e);
      assert init + [r] == runs;
    }
  }

  lemma SumNext(xs: seq<int>, x: int)
    ensures SumInts(xs + [x]) == SumInts(xs) + x
  {
    assert (xs + [x])[..|xs|] == xs;
  }

  lemma HesitationRow(runs: seq<RunData>, t: Tables, e: ElementId)
    requires Means(t, runs)
    ensures e in t.hesitationTime <==> Actors(runs, e) > 0
    ensures e in t.hesitationTime ==>
              t.hesitationTime[e].sampleSize == Actors(runs, e)
              && Times(t.hesitationTime[e].value, Actors(runs, e) as real) == Waited(runs, e) as real
  {
    HesitationsAreWaits(runs, e);
    hide RateTable, FirstTable, ShareTable, Fraction, Times, Hesitations, SumInts, Actors, Waited;
    if e in t.hesitationTime { FractionTimes(SumInts(Hesitations(runs, e)), |Hesitations(runs, e)|); }
  }

  // The hesitation at an element, times the participants that acted on it, is the
  // time they looked at it before their first action.
  lemma HesitationsAreTimes(runs: seq<RunData>, t: Tables, e: ElementId)
    requires Means(t, runs)
    ensures e in t.hesitationTime <==> Actors(runs, e) > 0
    ensures e in t.hesitationTime ==>
              t.hesitationTime[e].sampleSize == Actors(runs, e)
              && t.hesitationTime[e].value * Actors(runs, e) as real == Waited(runs, e) as real
  {
    hide Actors, Waited, Means;
    HesitationRow(runs, t, e);
  }

  // ---- slower participants ----

  function Longer(c: int, ms: int): int {
    c * ms
  }

  lemma LongerAdds(c: int, a: int, b: int)
    ensures Longer(c, a + b) == Longer(c, a) + Longer(c, b) && Longer(c, 0) == 0
  {}

  // Every recorded duration multiplied by c.
  function SlowedEvents(obs: seq<Event>, c: int): (r: seq<Event>)
    ensures |r| == |obs|
  {
    if obs == [] then []
    else
      var o := obs[0];
      [o.(durationMs := if o.durationMs.Some? then Some(Longer(c, o.durationMs.value)) else None)] + SlowedEvents(obs[1..], c)
  }

  function Slowed(runs: seq<RunData>, c: int): (r: seq<RunData>)
    ensures |r| == |runs|
  {
    if runs == [] then []
    else [runs[0].(observations := SlowedEvents(runs[0].observations, c))] + Slowed(runs[1..], c)
  }

  lemma {:induction false} SlowedTimes(obs: seq<Event>, c: int, e: ElementId, moment: int)
    ensures var slow := SlowedEvents(obs, c);
            && RecordedAt(slow, e) == Longer(c, RecordedAt(obs, e))
            && Recorded(slow) == Longer(c, Recorded(obs))
            && RecordedBefore(slow, e, moment) == Longer(c, RecordedBefore(obs, e, moment))
            && FirstActed(slow, e) == FirstActed(obs, e)
  {
    hide Longer;
    LongerAdds(c, 0, 0);
    if obs != [] {
      var slow, o := SlowedEvents(obs, c), obs[0];
      assert slow[1..] == SlowedEvents(obs[1..], c);
      SlowedTimes(obs[1..], c, e, moment);
      var ms := if o.durationMs.Some? then o.durationMs.value else 0;
      LongerAdds(c, ms, RecordedAt(obs[1..], e));
      LongerAdds(c, ms, Recorded(obs[1..]));
      LongerAdds(c, ms, RecordedBefore(obs[1..], e, moment));
    }
  }

  lemma {:induction false} SlowedTotals(runs: seq<RunData>, c: int, e: ElementId)
    ensures var slow := Slowed(runs, c);
            && AllRecordedAt(slow, e) == Longer(c, AllRecordedAt(runs, e))
            && AllRecorded(slow) == Longer(c, AllRecorded(runs))
            && Waited(slow, e) == Longer(c, Waited(runs, e))
            && Actors(slow, e) == Actors(runs, e)
  {
    hide Longer, RecordedAt, Recorded, RecordedBefore, FirstActed;
    LongerAdds(c, 0, 0);
    if runs != [] {
      var slow, obs := Slowed(runs, c), runs[0].observations;
      assert slow[1..] == Slowed(runs[1..], c);
      SlowedTotals(runs[1..], c, e);
      var moment := if FirstActed(obs, e).Some? then FirstActed(obs, e).value else 0;
      SlowedTimes(obs, c, e, moment);
      LongerAdds(c, RecordedAt(obs, e), AllRecordedAt(runs[1..], e));
      LongerAdds(c, Recorded(obs), AllRecorded(runs[1..]));
      LongerAdds(c, RecordedBefore(obs, e, moment), Waited(runs[1..], e));
    }
  }

  lemma LongerSign(c: int, a: int)
    requires c > 0
    ensures Longer(c, a) > 0 <==> a > 0
  {}

  lemma SameShare(c: int, part: int, whole: int, p: real, q: real)
    requires c > 0 && whole > 0
    requires Times(p, whole as real) == part as real && Times(q, Longer(c, whole) as real) == Longer(c, part) as real
    ensures p == q
  {
    var k, w := c as real, whole as real;
    assert Longer(c, whole) as real == k * w && Longer(c, part) as real == k * part as real;
    assert q * (k * w) == k * (p * w);
    assert (k * w) * (q - p) == 0.0;
    assert k * w > 0.0;
  }

  lemma LongerMean(c: int, total: int, n: nat, p: real, q: real)
    requires n > 0 && Times(p, n as real) == total as real && Times(q, n as real) == Longer(c, total) as real
    ensures q == Times(c as real, p)
  {
    var w := n as real;
    assert q * w == c as real * (p * w);
    assert (q - c as real * p) * w == 0.0;
  }

  lemma {:induction false} SlowedAt(obs: seq<Event>, c: int, i: nat)
    requires i < |obs|
    ensures SlowedEvents(obs, c)[i].kind == obs[i].kind && SlowedEvents(obs, c)[i].element == obs[i].element
  {
    if i > 0 { SlowedAt(obs[1..], c, i - 1); }
  }

  lemma {:induction false} SlowedRun(runs: seq<RunData>, c: int, i: nat)
    requires i < |runs|
    ensures Slowed(runs, c)[i].observations == SlowedEvents(runs[i].observations, c)
  {
    hide SlowedEvents;
    if i > 0 { SlowedRun(runs[1..], c, i - 1); }
  }

  lemma SlowedLooksAt(obs: seq<Event>, c: int, e: ElementId)
    ensures LooksAt(SlowedEvents(obs, c), e) <==> LooksAt(obs, e)
  {
    hide SlowedEvents;
    var slow := SlowedEvents(obs, c);
    forall i | 0 <= i < |obs|
      ensures slow[i].kind == obs[i].kind && slow[i].element == obs[i].element
    {
      SlowedAt(obs, c, i);
    }
    if i :| 0 <= i < |obs| && obs[i].kind == Gaze && obs[i].element == Some(e) {
      assert obs[i] in obs && slow[i] in slow;
    }
  }

  lemma SlowedLookers(runs: seq<RunData>, c: int, e: ElementId)
    ensures SomeoneLooks(Slowed(runs, c), e) <==> SomeoneLooks(runs, e)
  {
    hide Slowed, LooksAt;
    var slow := Slowed(runs, c);
    forall i | 0 <= i < |runs|
      ensures LooksAt(slow[i].observations, e) <==> LooksAt(runs[i].observations, e)
    {
      SlowedRun(runs, c, i);
      SlowedLooksAt(runs[i].observations, c, e);
    }
    if i :| 0 <= i < |runs| && LooksAt(runs[i].observations, e) {
      assert runs[i] in runs && slow[i] in slow;
    }
  }

  // Multiplying every duration by c > 0 leaves every attention share as it is ...
  lemma SlowerSameShares(runs: seq<RunData>, t: Tables, slow: Tables, c: int, e: ElementId)
    requires Means(t, runs) && Means(slow, Slowed(runs, c)) && c > 0
    ensures e in slow.attentionShare <==> e in t.attentionShare
    ensures e in t.attentionShare && e in slow.attentionShare ==> slow.attentionShare[e].value == t.attentionShare[e].value
  {
    hide *;
    ShareRow(runs, t, e);
    ShareRow(Slowed(runs, c), slow, e);
    SlowedLookers(runs, c, e);
    SlowedTotals(runs, c, e);
    LongerSign(c, AllRecorded(runs));
    if e in t.attentionShare && e in slow.attentionShare {
      SameShare(c, AllRecordedAt(runs, e), AllRecorded(runs), t.attentionShare[e].value, slow.attentionShare[e].value);
    }
  }

  // ... and multiplies every hesitation time by c.
  lemma SlowerHesitates(runs: seq<RunData>, t: Tables, slow: Tables, c: int, e: ElementId)
    requires Means(t, runs) && Means(slow, Slowed(runs, c)) && c > 0
    ensures e in slow.hesitationTime <==> e in t.hesitationTime
    ensures e in t.hesitationTime && e in slow.hesitationTime ==>
              slow.hesitationTime[e].value == Times(c as real, t.hesitationTime[e].value)
  {
    hide *;
    HesitationRow(runs, t, e);
    HesitationRow(Slowed(runs, c), slow, e);
    SlowedTotals(runs, c, e);
    if e in t.hesitationTime && e in slow.hesitationTime {
      LongerMean(c, Waited(runs, e), Actors(runs, e), t.hesitationTime[e].value, slow.hesitationTime[e].value);
    }
  }

  function Look(no: int, e: ElementId, ms: int): Event {
    Event(no, Gaze, Some(0), Some(e), Some(ms), Nothing)
  }

  function NineOne(): seq<Event> {
    [Look(0, 0, 900), Look(1, 1, 100), Event(2, Acted(Click), Some(0), Some(0), None, Nothing)]
  }

  lemma NineOneTimes()
    ensures RecordedAt(NineOne(), 0) == 900 && RecordedAt(NineOne(), 1) == 100 && Recorded(NineOne()) == 1000
    ensures FirstActed(NineOne(), 0) == Some(2) && FirstActed(NineOne(), 1) == None
    ensures RecordedBefore(NineOne(), 0, 2) == 900
    ensures LooksAt(NineOne(), 0) && LooksAt(NineOne(), 1)
  {
    var obs := NineOne();
    assert obs[1..] == [obs[1], obs[2]] && obs[1..][1..] == [obs[2]] && obs[1..][1..][1..] == [];
    assert obs[0] in obs && obs[1] in obs;
  }

  // A gaze of 900 ms at element 0, one of 100 ms at element 1, then a click on
  // element 0: the shares are 0.9 and 0.1, and element 0 took 900 ms.
  lemma NineToOne(t: Tables, r: RunData)
    requires r.observations == NineOne() && Means(t, [r])
    ensures 0 in t.attentionShare && t.attentionShare[0].value == 0.9
    ensures 1 in t.attentionShare && t.attentionShare[1].value == 0.1
    ensures 0 in t.hesitationTime && t.hesitationTime[0].value == 900.0 && 1 !in t.hesitationTime
  {
    hide Means, NineOne, RecordedAt, Recorded, RecordedBefore, FirstActed, LooksAt;
    NineOneTimes();
    assert [r][1..] == [] && r in [r];
    ShareRow([r], t, 0);
    ShareRow([r], t, 1);
    HesitationRow([r], t, 0);
    HesitationRow([r], t, 1);
  }
}
