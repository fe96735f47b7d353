/** The rows of one simulation run and its job queue, and what each committed
    transaction does to them. */
module RunQueue {
  datatype Ending = EndCompleted | EndFailed | EndAbandoned

  // `errored` is the marker written when a participant's job failed for good.
  datatype Participant = Waiting | Ended(ending: Ending, errored: bool)

  datatype RunStatus = Running | Cancelling | Cancelled | Completed | Failed

  datatype Kind = Simulate(participant: nat) | Aggregate | Validate | Insights

  datatype JobStatus = Pending | InFlight | Done | GivenUp | Dropped

  datatype Job = Job(kind: Kind, status: JobStatus, attempts: nat) {
    predicate Active() {
      status == Pending || status == InFlight
    }

    predicate Settled() {
      status == Done || status == GivenUp
    }
  }

  datatype Db = Db(run: RunStatus, parts: seq<Participant>, jobs: seq<Job>)

  const MAX_ATTEMPTS: nat := 3

  predicate TerminalRun(run: RunStatus) {
    run == Completed || run == Failed || run == Cancelled
  }

  // ---- what the handlers do ----

  predicate Complete(parts: seq<Participant>) {
    |parts| > 0 && forall i :: 0 <= i < |parts| ==> parts[i].Ended?
  }

  predicate AllErrored(parts: seq<Participant>) {
    forall i :: 0 <= i < |parts| ==> parts[i].Ended? && parts[i].errored
  }

  // The status a finalized run gets.
  function FinalStatus(run: RunStatus, parts: seq<Participant>): RunStatus {
    if run == Cancelling then Cancelled else if AllErrored(parts) then Failed else Completed
  }

  function Fresh(kind: Kind): Job {
    Job(kind, Pending, 0)
  }

  // Finalize once every participant is terminal, and start the analysis chain
  // unless the run was being cancelled.
  function Finalized(db: Db): Db {
    if !Complete(db.parts) then db
    else
      var run := FinalStatus(db.run, db.parts);
      Db(run, db.parts, if run == Cancelled then db.jobs else db.jobs + [Fresh(Aggregate)])
  }

  function Ends(db: Db, p: nat, ended: Participant): Db
    requires p < |db.parts|
  {
    Finalized(db.(parts := db.parts[p := ended]))
  }

  function GiveUpPart(p: Participant): Participant {
    if p.Ended? then p else Ended(EndFailed, true)
  }

  // The job that follows when a job is done.
  function Chained(kind: Kind): seq<Job> {
    match kind
    case Simulate(_) => []
    case Aggregate => [Fresh(Validate)]
    case Validate => [Fresh(Insights)]
    case Insights => []
  }

  function SetStatus(db: Db, j: nat, status: JobStatus, attempts: nat): Db
    requires j < |db.jobs|
  {
    db.(jobs := db.jobs[j := db.jobs[j].(status := status, attempts := attempts)])
  }

  datatype Act = Claim(j: nat) | Succeed(j: nat, ending: Ending) | FailAttempt(j: nat) | Cancel

  predicate WellPlaced(db: Db) {
    forall j :: 0 <= j < |db.jobs| && db.jobs[j].kind.Simulate? ==> db.jobs[j].kind.participant < |db.parts|
  }

  predicate Enabled(db: Db, a: Act) {
    match a
    case Claim(j) => j < |db.jobs| && db.jobs[j].status == Pending
    case Succeed(j, _) => j < |db.jobs| && db.jobs[j].status == InFlight
    case FailAttempt(j) => j < |db.jobs| && db.jobs[j].status == InFlight
    case Cancel => !TerminalRun(db.run)
  }

  function Succeeded(db: Db, j: nat, ending: Ending): Db
    requires j < |db.jobs| && WellPlaced(db)
  {
    var job := db.jobs[j];
    var done := SetStatus(db, j, Done, job.attempts);
    if job.kind.Simulate? then Ends(done, job.kind.participant, Ended(ending, false))
    else done.(jobs := done.jobs + Chained(job.kind))
  }

  function AttemptFailed(db: Db, j: nat): Db
    requires j < |db.jobs| && WellPlaced(db)
  {
    var job := db.jobs[j];
    var attempts := job.attempts + 1;
    if attempts < MAX_ATTEMPTS then SetStatus(db, j, Pending, attempts)
    else
      var dead := SetStatus(db, j, GivenUp, attempts);
      if job.kind.Simulate? then Ends(dead, job.kind.participant, GiveUpPart(db.parts[job.kind.participant])) else dead
  }

  function DropPending(jobs: seq<Job>): (r: seq<Job>)
    ensures |r| == |jobs|
    ensures forall j :: 0 <= j < |jobs| ==>
              r[j] == if jobs[j].kind.Simulate? && jobs[j].status == Pending then jobs[j].(status := Dropped) else jobs[j]
  {
    seq(|jobs|, j requires 0 <= j < |jobs| =>
      if jobs[j].kind.Simulate? && jobs[j].status == Pending then jobs[j].(status := Dropped) else jobs[j])
  }

  function AbandonWaiting(parts: seq<Participant>): (r: seq<Participant>)
    ensures |r| == |parts|
    ensures forall p :: 0 <= p < |parts| ==> r[p] == if parts[p] == Waiting then Ended(EndAbandoned, false) else parts[p]
  {
    seq(|parts|, p requires 0 <= p < |parts| => if parts[p] == Waiting then Ended(EndAbandoned, false) else parts[p])
  }

  function CancelledDb(db: Db): Db {
    var parts := AbandonWaiting(db.parts);
    Db(if Complete(parts) then FinalStatus(Cancelling, parts) else Cancelling, parts, DropPending(db.jobs))
  }

  // The database after one committed transaction.
  function Do(db: Db, a: Act): Db
    requires Enabled(db, a) && WellPlaced(db)
  {
    match a
    case Claim(j) => SetStatus(db, j, InFlight, db.jobs[j].attempts)
    case Succeed(j, ending) => Succeeded(db, j, ending)
    case FailAttempt(j) => AttemptFailed(db, j)
    case Cancel => CancelledDb(db)
  }

  // A new run: one waiting participant and one pending job for each.
  function Created(n: nat): Db {
    Db(Running, seq(n, i => Waiting), seq(n, i requires i >= 0 => Fresh(Simulate(i))))
  }

  // ---- counting jobs ----

  function Count(jobs: seq<Job>, p: Job -> bool): nat {
    if jobs == [] then 0 else Count(jobs[..|jobs| - 1], p) + if p(jobs[|jobs| - 1]) then 1 else 0
  }

  lemma CountAppend(jobs: seq<Job>, job: Job, p: Job -> bool)
    ensures Count(jobs + [job], p) == Count(jobs, p) + if p(job) then 1 else 0
  {
    assert (jobs + [job])[..|jobs|] == jobs;
  }

  lemma {:induction false} CountUpdate(jobs: seq<Job>, j: nat, job: Job, p: Job -> bool)
    requires j < |jobs|
    ensures Count(jobs[j := job], p) + (if p(jobs[j]) then 1 else 0) == Count(jobs, p) + if p(job) then 1 else 0
  {
    var init := jobs[..|jobs| - 1];
    if j == |jobs| - 1 {
      assert jobs[j := job][..|jobs| - 1] == init;
    } else {
      assert jobs[j := job][..|jobs| - 1] == init[j := job];
      CountUpdate(init, j, job, p);
    }
  }

  lemma {:induction false} CountZero(jobs: seq<Job>, p: Job -> bool)
    requires forall j :: 0 <= j < |jobs| ==> !p(jobs[j])
    ensures Count(jobs, p) == 0
  {
    if jobs != [] { CountZero(jobs[..|jobs| - 1], p); }
  }

  function IsAggregate(): Job -> bool {
    (j: Job) => j.kind == Aggregate
  }

  function IsSettled(): Job -> bool {
    (j: Job) => j.kind.Simulate? && j.Settled()
  }

  function OfKind(kind: Kind): Job -> bool {
    (j: Job) => j.kind == kind
  }

  function DoneOf(kind: Kind): Job -> bool {
    (j: Job) => j.kind == kind && j.status == Done
  }

  // ---- invariants of every committed state, cancelled or not ----

  ghost predicate Shape(n: nat, db: Db) {
    && n >= 1 && |db.parts| == n && |db.jobs| >= n
    && (forall j :: 0 <= j < |db.jobs| ==> if j < n then db.jobs[j].kind == Simulate(j) else !db.jobs[j].kind.Simulate?)
    && (forall j :: 0 <= j < |db.jobs| ==>
          && (db.jobs[j].status == GivenUp <==> db.jobs[j].attempts == MAX_ATTEMPTS)
          && db.jobs[j].attempts <= MAX_ATTEMPTS)
  }

  // A run is terminal exactly when all its participants are, and a participant
  // waits only while its job is queued or in flight.
  ghost predicate Consistent(n: nat, db: Db) {
    && Shape(n, db)
    && db.run != Cancelling
    && (TerminalRun(db.run) <==> Complete(db.parts))
    && (forall p :: 0 <= p < n && db.parts[p] == Waiting ==> db.jobs[p].Active())
    && (!Complete(db.parts) ==> |db.jobs| == n)
  }

  lemma CreatedConsistent(n: nat)
    requires n >= 1
    ensures Consistent(n, Created(n))
  {
    assert Created(n).parts[0] == Waiting;
  }

  lemma EndsConsistent(n: nat, db: Db, p: nat, ended: Participant)
    requires Shape(n, db) && p < n && ended.Ended? && db.run != Cancelling
    requires TerminalRun(db.run) <==> Complete(db.parts)
    requires forall q :: 0 <= q < n && q != p && db.parts[q] == Waiting ==> db.jobs[q].Active()
    requires !Complete(db.parts) ==> |db.jobs| == n
    ensures Consistent(n, Ends(db, p, ended))
  {
    var parts := db.parts[p := ended];
    if !Complete(parts) {
      assert !Complete(db.parts) by {
        var q :| 0 <= q < n && parts[q] == Waiting;
        assert db.parts[q] == Waiting;
      }
    }
  }

  lemma StatusConsistent(n: nat, db: Db, j: nat, status: JobStatus, attempts: nat, more: seq<Job>)
    requires Consistent(n, db) && j < |db.jobs|
    requires (status == GivenUp <==> attempts == MAX_ATTEMPTS) && attempts <= MAX_ATTEMPTS
    requires j < n ==> more == [] && (status == Pending || status == InFlight)
    requires more != [] ==> exists kind :: more == [Fresh(kind)] && !kind.Simulate?
    ensures var moved := SetStatus(db, j, status, attempts);
            Consistent(n, moved.(jobs := moved.jobs + more))
  {
    hide Complete;
  }

  lemma CancelConsistent(n: nat, db: Db)
    requires Consistent(n, db) && !TerminalRun(db.run)
    ensures Consistent(n, CancelledDb(db))
  {}

  lemma DoConsistent(n: nat, db: Db, a: Act)
    requires Consistent(n, db) && Enabled(db, a)
    ensures WellPlaced(db) && Consistent(n, Do(db, a))
    ensures forall p :: 0 <= p < n && db.parts[p].Ended? ==> Do(db, a).parts[p].Ended?
  {
    match a
    case Claim(j) =>
      hide Consistent;
      StatusConsistent(n, db, j, InFlight, db.jobs[j].attempts, []);
      NoMore(SetStatus(db, j, InFlight, db.jobs[j].attempts));
    case Succeed(j, ending) => SucceedConsistent(n, db, j, ending);
    case FailAttempt(j) => FailConsistent(n, db, j);
    case Cancel => CancelConsistent(n, db);
  }

  lemma NoMore(db: Db)
    ensures db.(jobs := db.jobs + []) == db
  {
    assert db.jobs + [] == db.jobs;
  }

  lemma SucceedConsistent(n: nat, db: Db, j: nat, ending: Ending)
    requires Consistent(n, db) && Enabled(db, Succeed(j, ending))
    ensures WellPlaced(db) && Consistent(n, Succeeded(db, j, ending))
  {
    hide Complete;
    if j < n {
      EndsConsistent(n, SetStatus(db, j, Done, db.jobs[j].attempts), j, Ended(ending, false));
    } else {
      var kind := db.jobs[j].kind;
      if Chained(kind) == [] { NoMore(SetStatus(db, j, Done, db.jobs[j].attempts)); }
      StatusConsistent(n, db, j, Done, db.jobs[j].attempts, Chained(kind));
    }
  }

  lemma FailConsistent(n: nat, db: Db, j: nat)
    requires Consistent(n, db) && Enabled(db, FailAttempt(j))
    ensures WellPlaced(db) && Consistent(n, AttemptFailed(db, j))
  {
    hide Complete;
    var attempts := db.jobs[j].attempts + 1;
    if j < n && attempts == MAX_ATTEMPTS {
      EndsConsistent(n, SetStatus(db, j, GivenUp, MAX_ATTEMPTS), j, GiveUpPart(db.parts[j]));
    } else {
      var status := if attempts < MAX_ATTEMPTS then Pending else GivenUp;
      NoMore(SetStatus(db, j, status, attempts));
      StatusConsistent(n, db, j, status, attempts, []);
    }
  }

  // ---- histories ----

  ghost predicate Legal(db: Db, acts: seq<Act>)
    decreases |acts|
  {
    acts == [] || (WellPlaced(db) && Enabled(db, acts[0]) && Legal(Do(db, acts[0]), acts[1..]))
  }

  ghost function After(db: Db, acts: seq<Act>): Db
    requires Legal(db, acts)
    decreases |acts|
  {
    if acts == [] then db else After(Do(db, acts[0]), acts[1..])
  }

  // In every history of commits, cancelled or not: the run's status is terminal
  // exactly when every participant's is, CANCELLING is never left behind,
  // attempts and failures agree, and no participant leaves a terminal status.
  lemma {:induction false} AlwaysConsistent(n: nat, db: Db, acts: seq<Act>)
    requires Consistent(n, db) && Legal(db, acts)
    ensures Consistent(n, After(db, acts))
    ensures forall p :: 0 <= p < n && db.parts[p].Ended? ==> After(db, acts).parts[p].Ended?
    decreases |acts|
  {
    if acts != [] {
      DoConsistent(n, db, acts[0]);
      AlwaysConsistent(n, Do(db, acts[0]), acts[1..]);
    }
  }

  // ---- three attempts ----

  // The failed attempts of one job in a history.
  function Failures(acts: seq<Act>, j: nat): nat {
    if acts == [] then 0 else (if acts[0] == FailAttempt(j) then 1 else 0) + Failures(acts[1..], j)
  }

  function AttemptsOf(db: Db, j: nat): nat {
    if j < |db.jobs| then db.jobs[j].attempts else 0
  }

  lemma EndsAttempts(db: Db, p: nat, ended: Participant, j: nat)
    requires p < |db.parts|
    ensures AttemptsOf(Ends(db, p, ended), j) == AttemptsOf(db, j) && |Ends(db, p, ended).jobs| >= |db.jobs|
  {
    hide Complete, FinalStatus;
  }

  lemma OneFailure(db: Db, a: Act, j: nat)
    requires WellPlaced(db) && Enabled(db, a)
    ensures AttemptsOf(Do(db, a), j) == AttemptsOf(db, j) + if a == FailAttempt(j) then 1 else 0
  {
    hide Ends, CancelledDb;
    match a
    case Claim(i) =>
    case Succeed(i, ending) =>
      var done := SetStatus(db, i, Done, db.jobs[i].attempts);
      if db.jobs[i].kind.Simulate? { EndsAttempts(done, db.jobs[i].kind.participant, Ended(ending, false), j); }
    case FailAttempt(i) =>
      var dead := SetStatus(db, i, GivenUp, db.jobs[i].attempts + 1);
      if db.jobs[i].kind.Simulate? {
        EndsAttempts(dead, db.jobs[i].kind.participant, GiveUpPart(db.parts[db.jobs[i].kind.participant]), j);
      }
    case Cancel => CancelAttempts(db, j);
  }

  lemma CancelAttempts(db: Db, j: nat)
    ensures AttemptsOf(CancelledDb(db), j) == AttemptsOf(db, j)
  {
    hide Complete;
  }

  lemma {:induction false} AttemptsCount(db: Db, acts: seq<Act>, j: nat)
    requires Legal(db, acts)
    ensures AttemptsOf(After(db, acts), j) == AttemptsOf(db, j) + Failures(acts, j)
    decreases |acts|
  {
    hide Do, WellPlaced, Enabled, AttemptsOf;
    if acts != [] {
      OneFailure(db, acts[0], j);
      AttemptsCount(Do(db, acts[0]), acts[1..], j);
    }
  }

  // In every history of a new run no job fails more than three times, and it has
  // been given up exactly when it failed three times.
  lemma ThreeAttempts(n: nat, acts: seq<Act>, j: nat)
    requires n >= 1 && Legal(Created(n), acts) && j < |After(Created(n), acts).jobs|
    ensures Failures(acts, j) <= 3
    ensures After(Created(n), acts).jobs[j].status == GivenUp <==> Failures(acts, j) == 3
  {
    CreatedConsistent(n);
    AlwaysConsistent(n, Created(n), acts);
    AttemptsCount(Created(n), acts, j);
    hide Legal, After;
  }

  // A failed attempt after none or one leaves the job pending; after two it is
  // given up.
  lemma AttemptOutcome(db: Db, j: nat)
    requires WellPlaced(db) && Enabled(db, FailAttempt(j)) && db.jobs[j].attempts <= 2
    ensures var job := Do(db, FailAttempt(j)).jobs[j];
            && job.attempts == db.jobs[j].attempts + 1
            && (job.status == Pending <==> db.jobs[j].attempts in {0, 1})
            && (job.status == GivenUp <==> db.jobs[j].attempts == 2)
  {
    hide Complete, FinalStatus;
  }

  // ---- whose rows a commit writes ----

  // A success records the participant's own ending and nobody else's.
  lemma SuccessIsRecorded(n: nat, db: Db, j: nat, ending: Ending)
    requires Consistent(n, db) && Enabled(db, Succeed(j, ending)) && j < n
    ensures WellPlaced(db)
    ensures var after := Do(db, Succeed(j, ending));
            after.parts == db.parts[j := Ended(ending, false)] && after.jobs[j] == Job(Simulate(j), Done, db.jobs[j].attempts)
  {
    hide Complete, FinalStatus;
  }

  // A failed attempt leaves every participant as it is, except that the third one
  // ends a waiting participant as failed, with the error marker.
  lemma FailureIsRecorded(n: nat, db: Db, j: nat)
    requires Consistent(n, db) && Enabled(db, FailAttempt(j)) && j < n && db.jobs[j].attempts <= 2
    ensures WellPlaced(db)
    ensures Do(db, FailAttempt(j)).parts ==
            if db.jobs[j].attempts == 2 && db.parts[j] == Waiting then db.parts[j := Ended(EndFailed, true)] else db.parts
  {
    hide Complete, FinalStatus;
  }

  // A cancellation abandons the participants still waiting, without the error
  // marker, and drops the participants' jobs still pending; all other rows stay.
  lemma CancellationIsRecorded(db: Db, p: nat, j: nat)
    requires Enabled(db, Cancel) && WellPlaced(db) && p < |db.parts| && j < |db.jobs|
    ensures var after := Do(db, Cancel);
            && |after.parts| == |db.parts| && |after.jobs| == |db.jobs|
            && after.parts[p] == (if db.parts[p] == Waiting then Ended(EndAbandoned, false) else db.parts[p])
            && after.jobs[j] == (if db.jobs[j].status == Pending && db.jobs[j].kind.Simulate?
                                 then Job(db.jobs[j].kind, Dropped, db.jobs[j].attempts) else db.jobs[j])
  {
    hide Complete, FinalStatus;
  }
}
