/** What each element metric of a population means, one definition at a time. */
module ElementMetrics {
  import opened Domain

  type RunId = nat

  datatype RunData = RunData(id: RunId, completed: bool, observations: seq<Event>)

  datatype Row = Row(value: real, sampleSize: nat)

  // ---- one participant ----

  predicate Touches(o: Event, e: ElementId) {
    o.element == Some(e)
  }

  predicate GazesAt(o: Event, e: ElementId) {
    o.kind == Gaze && o.element == Some(e)
  }

  predicate ActsOn(o: Event, e: ElementId) {
    o.kind.Acted? && o.element == Some(e)
  }

  function DwellOf(o: Event): int {
    if o.durationMs.Some? then o.durationMs.value else 0
  }

  function GazeCount(obs: seq<Event>, e: ElementId): nat {
    if obs == [] then 0 else GazeCount(obs[..|obs| - 1], e) + if GazesAt(obs[|obs| - 1], e) then 1 else 0
  }

  function ActionCount(obs: seq<Event>, e: ElementId): nat {
    if obs == [] then 0 else ActionCount(obs[..|obs| - 1], e) + if ActsOn(obs[|obs| - 1], e) then 1 else 0
  }

  function TouchCount(obs: seq<Event>, e: ElementId): nat {
    if obs == [] then 0 else TouchCount(obs[..|obs| - 1], e) + if Touches(obs[|obs| - 1], e) then 1 else 0
  }

  // Time spent looking at an element.
  function Dwell(obs: seq<Event>, e: ElementId): int {
    if obs == [] then 0 else Dwell(obs[..|obs| - 1], e) + if GazesAt(obs[|obs| - 1], e) then DwellOf(obs[|obs| - 1]) else 0
  }

  // Time spent looking at any element.
  function AnyDwell(obs: seq<Event>): int {
    if obs == [] then 0
    else AnyDwell(obs[..|obs| - 1])
         + if obs[|obs| - 1].kind == Gaze && obs[|obs| - 1].element.Some? then DwellOf(obs[|obs| - 1]) else 0
  }

  // Time spent looking at an element before a moment.
  function DwellBefore(obs: seq<Event>, e: ElementId, moment: int): int {
    if obs == [] then 0
    else DwellBefore(obs[..|obs| - 1], e, moment)
         + if GazesAt(obs[|obs| - 1], e) && obs[|obs| - 1].sequenceNo < moment then DwellOf(obs[|obs| - 1]) else 0
  }

  // The sequence number of the first listed action on an element.
  function FirstAction(obs: seq<Event>, e: ElementId): Option<int> {
    if obs == [] then None
    else
      var before := FirstAction(obs[..|obs| - 1], e);
      if before.Some? then before
      else if ActsOn(obs[|obs| - 1], e) then Some(obs[|obs| - 1].sequenceNo) else None
  }

  // `o` is the gaze with the lowest sequence number, the earliest listed of equals.
  ghost predicate IsFirstGaze(obs: seq<Event>, i: nat) {
    && i < |obs| && obs[i].kind == Gaze && obs[i].element.Some?
    && (forall j :: 0 <= j < |obs| && obs[j].kind == Gaze && obs[j].element.Some? ==>
          if j < i then obs[i].sequenceNo < obs[j].sequenceNo else obs[i].sequenceNo <= obs[j].sequenceNo)
  }

  ghost predicate FirstLooksAt(obs: seq<Event>, e: ElementId) {
    exists i :: 0 <= i < |obs| && IsFirstGaze(obs, i) && obs[i].element == Some(e)
  }

  // ---- the population ----

  ghost function Who(runs: seq<RunData>, p: RunData -> bool): set<RunId> {
    set i | 0 <= i < |runs| && p(runs[i]) :: runs[i].id
  }

  ghost function Touching(): ElementId -> RunData -> bool {
    (e: ElementId) => (r: RunData) => TouchCount(r.observations, e) >= 1
  }

  ghost function Gazing(times: nat): ElementId -> RunData -> bool {
    (e: ElementId) => (r: RunData) => GazeCount(r.observations, e) >= times
  }

  ghost function Acting(times: nat): ElementId -> RunData -> bool {
    (e: ElementId) => (r: RunData) => ActionCount(r.observations, e) >= times
  }

  ghost function Looking(): ElementId -> RunData -> bool {
    (e: ElementId) => (r: RunData) => FirstLooksAt(r.observations, e)
  }

  function TotalDwell(runs: seq<RunData>, e: ElementId): int {
    if runs == [] then 0 else TotalDwell(runs[..|runs| - 1], e) + Dwell(runs[|runs| - 1].observations, e)
  }

  function GrandDwell(runs: seq<RunData>): int {
    if runs == [] then 0 else GrandDwell(runs[..|runs| - 1]) + AnyDwell(runs[|runs| - 1].observations)
  }

  // One sample for each participant who acted on the element, in order.
  function Hesitations(runs: seq<RunData>, e: ElementId): seq<int> {
    if runs == [] then []
    else
      var obs := runs[|runs| - 1].observations;
      Hesitations(runs[..|runs| - 1], e)
      + if FirstAction(obs, e).Some? then [DwellBefore(obs, e, FirstAction(obs, e).value)] else []
  }

  function SumInts(xs: seq<int>): int {
    if xs == [] then 0 else SumInts(xs[..|xs| - 1]) + xs[|xs| - 1]
  }

  function Fraction(part: int, whole: int): real
    requires whole != 0
  {
    part as real / whole as real
  }

  // Participant runs are distinct rows.
  ghost predicate DistinctRuns(runs: seq<RunData>) {
    forall i, j :: 0 <= i < j < |runs| ==> runs[i].id != runs[j].id
  }

  // A table that gives, for the elements some participant qualifies for, the
  // share of `among` that `who` makes up.
  ghost predicate RateTable(table: map<ElementId, Row>, runs: seq<RunData>, who: ElementId -> RunData -> bool, among: ElementId -> RunData -> bool) {
    forall e :: (e in table <==> Who(runs, among(e)) != {})
                && (e in table ==> |Who(runs, among(e))| > 0
                                   && table[e] == Row(Fraction(|Who(runs, who(e))|, |Who(runs, among(e))|), |Who(runs, among(e))|))
  }

  ghost predicate ShareTable(table: map<ElementId, Row>, runs: seq<RunData>) {
    if GrandDwell(runs) <= 0 then table == map[]
    else forall e :: (e in table <==> Who(runs, Gazing(1)(e)) != {})
                     && (e in table ==> table[e] == Row(Fraction(TotalDwell(runs, e), GrandDwell(runs)), |runs|))
  }

  ghost predicate FirstTable(table: map<ElementId, Row>, runs: seq<RunData>) {
    forall e :: (e in table <==> Who(runs, Looking()(e)) != {})
                && (e in table ==> |runs| > 0 && table[e] == Row(Fraction(|Who(runs, Looking()(e))|, |runs|), |runs|))
  }

  ghost predicate HesitationTable(table: map<ElementId, Row>, runs: seq<RunData>) {
    forall e :: (e in table <==> Hesitations(runs, e) != [])
                && (e in table ==> |Hesitations(runs, e)| > 0
                                   && table[e] == Row(Fraction(SumInts(Hesitations(runs, e)), |Hesitations(runs, e)|), |Hesitations(runs, e)|))
  }

  datatype Tables = Tables(
    clickRate: map<ElementId, Row>,
    repeatedRate: map<ElementId, Row>,
    revisitRate: map<ElementId, Row>,
    attentionShare: map<ElementId, Row>,
    firstAttentionRate: map<ElementId, Row>,
    hesitationTime: map<ElementId, Row>
  )

  // The six metrics, each by its own definition.
  ghost predicate Means(t: Tables, runs: seq<RunData>) {
    && RateTable(t.clickRate, runs, Acting(1), Touching())
    && RateTable(t.repeatedRate, runs, Acting(2), Touching())
    && RateTable(t.revisitRate, runs, Gazing(2), Gazing(1))
    && ShareTable(t.attentionShare, runs)
    && FirstTable(t.firstAttentionRate, runs)
    && HesitationTable(t.hesitationTime, runs)
  }
}
