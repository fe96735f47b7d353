/** What a run and its queue guarantee over every history of commits: one
    analysis chain per uncancelled run, a queue that drains, and exactly what a
    cancellation does and does not settle. */
module RunSafety {
  import opened RunQueue

  // ---- without a cancellation ----

  ghost predicate Tracks(n: nat, db: Db) {
    && Consistent(n, db)
    && (forall p :: 0 <= p < n ==>
          && (db.parts[p].Ended? <==> db.jobs[p].Settled())
          && (db.parts[p].Ended? ==> (db.parts[p].errored <==> db.jobs[p].status == GivenUp)))
    && (forall j :: 0 <= j < |db.jobs| ==> db.jobs[j].status != Dropped)
    && Count(db.jobs, IsAggregate()) == (if Complete(db.parts) then 1 else 0)
    && (Complete(db.parts) ==> db.run == FinalStatus(Running, db.parts))
    && (!Complete(db.parts) ==> db.run == Running)
  }

  lemma CreatedTracks(n: nat)
    requires n >= 1
    ensures Tracks(n, Created(n))
  {
    CreatedConsistent(n);
    CountZero(Created(n).jobs, IsAggregate());
  }

  // How many aggregations are queued after a settlement.
  lemma SettleCount(n: nat, db: Db, p: nat, status: JobStatus, attempts: nat, ended: Participant)
    requires Shape(n, db) && p < n && db.run != Cancelling
    ensures var after := Ends(SetStatus(db, p, status, attempts), p, ended);
            Count(after.jobs, IsAggregate()) == Count(db.jobs, IsAggregate()) + if Complete(after.parts) then 1 else 0
  {
    hide Count, Complete;
    var moved := SetStatus(db, p, status, attempts);
    CountUpdate(db.jobs, p, moved.jobs[p], IsAggregate());
    CountAppend(moved.jobs, Fresh(Aggregate), IsAggregate());
  }

  lemma SettleTracks(n: nat, db: Db, p: nat, status: JobStatus, attempts: nat, ended: Participant)
    requires Tracks(n, db) && p < n && db.jobs[p].status == InFlight
    requires (status == Done && attempts < MAX_ATTEMPTS && ended.Ended? && !ended.errored)
             || (status == GivenUp && attempts == MAX_ATTEMPTS && ended == Ended(EndFailed, true))
    ensures Tracks(n, Ends(SetStatus(db, p, status, attempts), p, ended))
  {
    hide Count, IsAggregate;
    assert db.parts[p] == Waiting && !Complete(db.parts);
    EndsConsistent(n, SetStatus(db, p, status, attempts), p, ended);
    SettleCount(n, db, p, status, attempts, ended);
  }

  lemma OtherCount(db: Db, j: nat, status: JobStatus, attempts: nat, more: seq<Job>)
    requires j < |db.jobs| && |more| <= 1
    requires forall job :: job in more ==> job.kind != Aggregate
    ensures Count(SetStatus(db, j, status, attempts).jobs + more, IsAggregate()) == Count(db.jobs, IsAggregate())
  {
    hide Count;
    var moved := SetStatus(db, j, status, attempts);
    CountUpdate(db.jobs, j, moved.jobs[j], IsAggregate());
    if more != [] {
      CountAppend(moved.jobs, more[0], IsAggregate());
      assert more == [more[0]];
    } else {
      assert moved.jobs + more == moved.jobs;
    }
  }

  lemma OtherTracks(n: nat, db: Db, j: nat, status: JobStatus, attempts: nat, more: seq<Job>)
    requires Tracks(n, db) && j < |db.jobs| && status != Dropped
    requires j < n ==> more == [] && status in {Pending, InFlight} && db.jobs[j].Active() && attempts < MAX_ATTEMPTS
    requires j >= n ==> (status == GivenUp <==> attempts == MAX_ATTEMPTS) && attempts <= MAX_ATTEMPTS
    requires |more| <= 1 && forall job :: job in more ==> job.kind in {Validate, Insights} && job == Fresh(job.kind)
    ensures var moved := SetStatus(db, j, status, attempts);
            Tracks(n, moved.(jobs := moved.jobs + more))
  {
    hide Count, IsAggregate, Complete, FinalStatus;
    OtherCount(db, j, status, attempts, more);
    assert j >= n ==> Complete(db.parts);
  }

  lemma DoTracks(n: nat, db: Db, a: Act)
    requires Tracks(n, db) && Enabled(db, a) && a != Cancel
    ensures WellPlaced(db) && Tracks(n, Do(db, a))
  {
    hide Count;
    match a
    case Claim(j) => NoMore(SetStatus(db, j, InFlight, db.jobs[j].attempts));
      OtherTracks(n, db, j, InFlight, db.jobs[j].attempts, []);
    case Succeed(j, ending) =>
      if j < n { SettleTracks(n, db, j, Done, db.jobs[j].attempts, Ended(ending, false)); }
      else { OtherTracks(n, db, j, Done, db.jobs[j].attempts, Chained(db.jobs[j].kind)); }
    case FailAttempt(j) =>
      var attempts := db.jobs[j].attempts + 1;
      if j < n && attempts == MAX_ATTEMPTS {
        assert db.parts[j] == Waiting;
        SettleTracks(n, db, j, GivenUp, attempts, Ended(EndFailed, true));
      } else {
        var status := if attempts < MAX_ATTEMPTS then Pending else GivenUp;
        NoMore(SetStatus(db, j, status, attempts));
        OtherTracks(n, db, j, status, attempts, []);
      }
  }

  ghost predicate NeverCancelled(acts: seq<Act>) {
    forall i :: 0 <= i < |acts| ==> acts[i] != Cancel
  }

  lemma {:induction false} AlwaysTracks(n: nat, db: Db, acts: seq<Act>)
    requires Tracks(n, db) && Legal(db, acts) && NeverCancelled(acts)
    ensures Tracks(n, After(db, acts))
    decreases |acts|
  {
    if acts != [] {
      DoTracks(n, db, acts[0]);
      AlwaysTracks(n, Do(db, acts[0]), acts[1..]);
    }
  }

  // In every uncancelled history the aggregation is enqueued at most once; once
  // every participant's job is done or given up it has been enqueued exactly
  // once and the run is FAILED if all of them were given up, else COMPLETED.
  lemma OneAggregation(n: nat, acts: seq<Act>)
    requires n >= 1 && Legal(Created(n), acts) && NeverCancelled(acts)
    ensures var db := After(Created(n), acts);
            && |db.jobs| >= n && Count(db.jobs, IsAggregate()) <= 1
            && ((forall p :: 0 <= p < n ==> db.jobs[p].Settled()) <==> TerminalRun(db.run))
            && (TerminalRun(db.run) ==>
                  && Count(db.jobs, IsAggregate()) == 1
                  && db.run == if (forall p :: 0 <= p < n ==> db.jobs[p].status == GivenUp) then Failed else Completed)
  {
    CreatedTracks(n);
    AlwaysTracks(n, Created(n), acts);
    hide Count, Legal;
    var db := After(Created(n), acts);
    assert Complete(db.parts) <==> forall p :: 0 <= p < n ==> db.jobs[p].Settled();
    if Complete(db.parts) {
      assert AllErrored(db.parts) <==> forall p :: 0 <= p < n ==> db.jobs[p].status == GivenUp;
    }
  }

  // ---- one terminal commit for each participant ----

  // The transaction that settles participant p's job: its success, or the failed
  // attempt that is its last.
  predicate Settles(db: Db, a: Act, p: nat) {
    match a
    case Succeed(j, _) => j == p
    case FailAttempt(j) => j == p && j < |db.jobs| && db.jobs[j].attempts + 1 >= MAX_ATTEMPTS
    case _ => false
  }

  ghost function Settlings(db: Db, acts: seq<Act>, p: nat): nat
    requires Legal(db, acts)
    decreases |acts|
  {
    if acts == [] then 0
    else (if Settles(db, acts[0], p) then 1 else 0) + Settlings(Do(db, acts[0]), acts[1..], p)
  }

  lemma DoSettles(n: nat, db: Db, a: Act, p: nat)
    requires Tracks(n, db) && Enabled(db, a) && a != Cancel && p < n
    ensures WellPlaced(db) && p < |Do(db, a).parts|
    ensures if Settles(db, a, p) then db.parts[p] == Waiting && Do(db, a).parts[p].Ended?
            else Do(db, a).parts[p] == db.parts[p]
  {
    hide Count, Complete;
  }

  lemma {:induction false} SettledOnce(n: nat, db: Db, acts: seq<Act>, p: nat)
    requires Tracks(n, db) && Legal(db, acts) && NeverCancelled(acts) && p < n
    ensures p < |db.parts| && p < |After(db, acts).parts|
    ensures Settlings(db, acts, p) ==
            (if After(db, acts).parts[p].Ended? then 1 else 0) - (if db.parts[p].Ended? then 1 else 0)
    ensures db.parts[p].Ended? ==> After(db, acts).parts[p] == db.parts[p]
    decreases |acts|
  {
    assert p < |db.parts|;
    hide Tracks;
    if acts != [] {
      DoSettles(n, db, acts[0], p);
      DoTracks(n, db, acts[0]);
      SettledOnce(n, Do(db, acts[0]), acts[1..], p);
      hide Do, Settles, Enabled;
    }
  }

  // In every uncancelled history each participant gets exactly one terminal
  // commit once it has ended and none before, and nothing that follows touches
  // its row again.
  lemma OneTerminalCommit(n: nat, acts: seq<Act>, more: seq<Act>, p: nat)
    requires n >= 1 && p < n && Legal(Created(n), acts) && NeverCancelled(acts)
    requires Legal(After(Created(n), acts), more) && NeverCancelled(more)
    ensures var db := After(Created(n), acts);
            && p < |db.parts| && p < |After(db, more).parts|
            && Settlings(Created(n), acts, p) == (if db.parts[p].Ended? then 1 else 0)
            && (db.parts[p].Ended? ==> After(db, more).parts[p] == db.parts[p] && Settlings(db, more, p) == 0)
  {
    CreatedTracks(n);
    AlwaysTracks(n, Created(n), acts);
    SettledOnce(n, Created(n), acts, p);
    SettledOnce(n, After(Created(n), acts), more, p);
    hide Tracks, After, Legal, Settlings;
  }

  // ---- the chain of analysis jobs ----

  ghost predicate ChainInv(db: Db) {
    && Count(db.jobs, OfKind(Validate)) == Count(db.jobs, DoneOf(Aggregate))
    && Count(db.jobs, OfKind(Insights)) == Count(db.jobs, DoneOf(Validate))
  }

  lemma SameChain(jobs: seq<Job>, j: nat, job: Job)
    requires j < |jobs| && job.kind == jobs[j].kind
    requires (job.status == Done <==> jobs[j].status == Done) || job.kind.Simulate? || job.kind == Insights
    ensures forall k :: k in {Validate, Insights} ==> Count(jobs[j := job], OfKind(k)) == Count(jobs, OfKind(k))
    ensures forall k :: k in {Aggregate, Validate} ==> Count(jobs[j := job], DoneOf(k)) == Count(jobs, DoneOf(k))
  {
    CountUpdate(jobs, j, job, OfKind(Validate));
    CountUpdate(jobs, j, job, OfKind(Insights));
    CountUpdate(jobs, j, job, DoneOf(Aggregate));
    CountUpdate(jobs, j, job, DoneOf(Validate));
  }

  lemma AppendChain(jobs: seq<Job>, kind: Kind)
    ensures forall k :: Count(jobs + [Fresh(kind)], OfKind(k)) == Count(jobs, OfKind(k)) + if kind == k then 1 else 0
    ensures forall k :: Count(jobs + [Fresh(kind)], DoneOf(k)) == Count(jobs, DoneOf(k))
  {
    forall k
      ensures Count(jobs + [Fresh(kind)], OfKind(k)) == Count(jobs, OfKind(k)) + if kind == k then 1 else 0
      ensures Count(jobs + [Fresh(kind)], DoneOf(k)) == Count(jobs, DoneOf(k))
    {
      CountAppend(jobs, Fresh(kind), OfKind(k));
      CountAppend(jobs, Fresh(kind), DoneOf(k));
    }
  }

  lemma EndsChain(db: Db, p: nat, ended: Participant)
    requires ChainInv(db) && p < |db.parts|
    ensures ChainInv(Ends(db, p, ended))
  {
    AppendChain(db.jobs, Aggregate);
  }

  lemma DoneChain(db: Db, j: nat)
    requires j < |db.jobs| && db.jobs[j].status == InFlight && db.jobs[j].kind in {Aggregate, Validate} && ChainInv(db)
    ensures var done := SetStatus(db, j, Done, db.jobs[j].attempts);
            ChainInv(done.(jobs := done.jobs + Chained(db.jobs[j].kind)))
  {
    var done := SetStatus(db, j, Done, db.jobs[j].attempts).jobs;
    CountUpdate(db.jobs, j, done[j], OfKind(Validate));
    CountUpdate(db.jobs, j, done[j], OfKind(Insights));
    CountUpdate(db.jobs, j, done[j], DoneOf(Aggregate));
    CountUpdate(db.jobs, j, done[j], DoneOf(Validate));
    AppendChain(done, if db.jobs[j].kind == Aggregate then Validate else Insights);
  }

  lemma {:induction false} DropChain(jobs: seq<Job>, p: Job -> bool)
    requires forall j: Job :: j.kind.Simulate? ==> !p(j)
    ensures Count(DropPending(jobs), p) == Count(jobs, p)
  {
    if jobs != [] {
      DropChain(jobs[..|jobs| - 1], p);
      assert DropPending(jobs)[..|jobs| - 1] == DropPending(jobs[..|jobs| - 1]);
    }
  }

  lemma DoChain(db: Db, a: Act)
    requires ChainInv(db) && WellPlaced(db) && Enabled(db, a)
    ensures ChainInv(Do(db, a))
  {
    hide Count;
    match a
    case Claim(j) => SameChain(db.jobs, j, db.jobs[j].(status := InFlight));
    case Succeed(j, ending) =>
      var done := SetStatus(db, j, Done, db.jobs[j].attempts);
      if db.jobs[j].kind in {Aggregate, Validate} {
        DoneChain(db, j);
      } else {
        SameChain(db.jobs, j, done.jobs[j]);
        if db.jobs[j].kind.Simulate? { EndsChain(done, db.jobs[j].kind.participant, Ended(ending, false)); }
        else { NoMore(done); }
      }
    case FailAttempt(j) =>
      var attempts := db.jobs[j].attempts + 1;
      var job := db.jobs[j].(status := if attempts < MAX_ATTEMPTS then Pending else GivenUp, attempts := attempts);
      SameChain(db.jobs, j, job);
      if attempts >= MAX_ATTEMPTS && job.kind.Simulate? {
        EndsChain(SetStatus(db, j, GivenUp, attempts), job.kind.participant, GiveUpPart(db.parts[job.kind.participant]));
      }
    case Cancel =>
      DropChain(db.jobs, OfKind(Validate));
      DropChain(db.jobs, OfKind(Insights));
      DropChain(db.jobs, DoneOf(Aggregate));
      DropChain(db.jobs, DoneOf(Validate));
  }

  lemma {:induction false} ChainKept(n: nat, db: Db, acts: seq<Act>)
    requires Consistent(n, db) && ChainInv(db) && Legal(db, acts)
    ensures ChainInv(After(db, acts))
    decreases |acts|
  {
    hide ChainInv, Consistent;
    if acts != [] {
      DoConsistent(n, db, acts[0]);
      DoChain(db, acts[0]);
      ChainKept(n, Do(db, acts[0]), acts[1..]);
    }
  }

  lemma CreatedChain(n: nat)
    ensures ChainInv(Created(n))
  {
    var jobs := Created(n).jobs;
    CountZero(jobs, OfKind(Validate));
    CountZero(jobs, OfKind(Insights));
    CountZero(jobs, DoneOf(Aggregate));
    CountZero(jobs, DoneOf(Validate));
  }

  // In every history of a created run, cancelled or not: one validation job for
  // each aggregation done and one insights job for each validation done.
  lemma ChainAccounts(n: nat, acts: seq<Act>)
    requires n >= 1 && Legal(Created(n), acts)
    ensures var jobs := After(Created(n), acts).jobs;
            && Count(jobs, OfKind(Validate)) == Count(jobs, DoneOf(Aggregate))
            && Count(jobs, OfKind(Insights)) == Count(jobs, DoneOf(Validate))
  {
    CreatedConsistent(n);
    CreatedChain(n);
    ChainKept(n, Created(n), acts);
    hide Legal, Count;
  }

  // ---- the queue drains ----

  // Handler executions a job can still cause, itself and its successors.
  function Fuel(job: Job): nat {
    if job.Active() && job.attempts < MAX_ATTEMPTS then
      MAX_ATTEMPTS - job.attempts + (match job.kind case Aggregate => 6 case Validate => 3 case _ => 0)
    else 0
  }

  function TotalFuel(jobs: seq<Job>): nat {
    if jobs == [] then 0 else TotalFuel(jobs[..|jobs| - 1]) + Fuel(jobs[|jobs| - 1])
  }

  // Executions left, counting the chain a pending finalization will start.
  function Work(db: Db): nat {
    TotalFuel(db.jobs) + if Complete(db.parts) then 0 else 9
  }

  lemma FuelAppend(jobs: seq<Job>, job: Job)
    ensures TotalFuel(jobs + [job]) == TotalFuel(jobs) + Fuel(job)
  {
    assert (jobs + [job])[..|jobs|] == jobs;
  }

  lemma {:induction false} FuelUpdate(jobs: seq<Job>, j: nat, job: Job)
    requires j < |jobs|
    ensures TotalFuel(jobs[j := job]) + Fuel(jobs[j]) == TotalFuel(jobs) + Fuel(job)
  {
    var init := jobs[..|jobs| - 1];
    if j == |jobs| - 1 {
      assert jobs[j := job][..|jobs| - 1] == init;
    } else {
      assert jobs[j := job][..|jobs| - 1] == init[j := job];
      FuelUpdate(init, j, job);
    }
  }

  predicate Executes(a: Act) {
    a.Succeed? || a.FailAttempt?
  }

  lemma EndsWork(db: Db, p: nat, ended: Participant)
    requires p < |db.parts| && db.parts[p] == Waiting && ended.Ended?
    ensures Work(Ends(db, p, ended)) <= Work(db)
  {
    FuelAppend(db.jobs, Fresh(Aggregate));
  }

  lemma DoWork(n: nat, db: Db, a: Act)
    requires Tracks(n, db) && Enabled(db, a) && a != Cancel
    ensures WellPlaced(db) && Work(Do(db, a)) + (if Executes(a) then 1 else 0) <= Work(db)
  {
    hide TotalFuel, Count;
    match a
    case Claim(j) => FuelUpdate(db.jobs, j, db.jobs[j].(status := InFlight));
    case Succeed(j, ending) =>
      var done := SetStatus(db, j, Done, db.jobs[j].attempts);
      FuelUpdate(db.jobs, j, done.jobs[j]);
      if j < n { EndsWork(done, j, Ended(ending, false)); }
      else if db.jobs[j].kind == Insights { NoMore(done); }
      else { FuelAppend(done.jobs, Chained(db.jobs[j].kind)[0]); }
    case FailAttempt(j) =>
      var attempts := db.jobs[j].attempts + 1;
      var moved := SetStatus(db, j, if attempts < MAX_ATTEMPTS then Pending else GivenUp, attempts);
      FuelUpdate(db.jobs, j, moved.jobs[j]);
      if j < n && attempts == MAX_ATTEMPTS { EndsWork(moved, j, Ended(EndFailed, true)); }
  }

  function Executions(acts: seq<Act>): nat {
    if acts == [] then 0 else (if Executes(acts[0]) then 1 else 0) + Executions(acts[1..])
  }

  lemma {:induction false} WorkBounds(n: nat, db: Db, acts: seq<Act>)
    requires Tracks(n, db) && Legal(db, acts) && NeverCancelled(acts)
    ensures Executions(acts) + Work(After(db, acts)) <= Work(db)
    decreases |acts|
  {
    hide Tracks, Work;
    if acts != [] {
      assert Tracks(n, db) ==> WellPlaced(db);
      DoWork(n, db, acts[0]);
      DoTracks(n, db, acts[0]);
      WorkBounds(n, Do(db, acts[0]), acts[1..]);
    }
  }

  lemma {:induction false} CreatedFuel(n: nat)
    ensures TotalFuel(Created(n).jobs) == 3 * n
  {
    if n > 0 {
      CreatedFuel(n - 1);
      assert Created(n).jobs[..n - 1] == Created(n - 1).jobs;
    }
  }

  function InFlights(): Job -> bool {
    (j: Job) => j.status == InFlight
  }

  lemma {:induction false} FlightsFuel(jobs: seq<Job>)
    requires forall j :: 0 <= j < |jobs| ==> jobs[j].status == InFlight ==> jobs[j].attempts < MAX_ATTEMPTS
    ensures Count(jobs, InFlights()) <= TotalFuel(jobs)
  {
    if jobs != [] { FlightsFuel(jobs[..|jobs| - 1]); }
  }

  // A claim puts one job in flight, an execution takes one out.
  lemma DoFlights(n: nat, db: Db, a: Act)
    requires Tracks(n, db) && Enabled(db, a) && a != Cancel
    ensures WellPlaced(db)
    ensures Count(Do(db, a).jobs, InFlights()) == Count(db.jobs, InFlights()) + if Executes(a) then -1 else 1
  {
    hide Count, Complete;
    match a
    case Claim(j) => CountUpdate(db.jobs, j, db.jobs[j].(status := InFlight), InFlights());
    case Succeed(j, ending) =>
      var done := SetStatus(db, j, Done, db.jobs[j].attempts);
      CountUpdate(db.jobs, j, done.jobs[j], InFlights());
      CountAppend(done.jobs, Fresh(Aggregate), InFlights());
      CountAppend(done.jobs, Fresh(Validate), InFlights());
      CountAppend(done.jobs, Fresh(Insights), InFlights());
      NoMore(done);
    case FailAttempt(j) =>
      var attempts := db.jobs[j].attempts + 1;
      var moved := SetStatus(db, j, if attempts < MAX_ATTEMPTS then Pending else GivenUp, attempts);
      CountUpdate(db.jobs, j, moved.jobs[j], InFlights());
      CountAppend(moved.jobs, Fresh(Aggregate), InFlights());
  }

  lemma {:induction false} ActsBound(n: nat, db: Db, acts: seq<Act>)
    requires Tracks(n, db) && Legal(db, acts) && NeverCancelled(acts)
    ensures |acts| == 2 * Executions(acts) + Count(After(db, acts).jobs, InFlights()) - Count(db.jobs, InFlights())
    decreases |acts|
  {
    hide Tracks, Count;
    if acts != [] {
      DoFlights(n, db, acts[0]);
      DoTracks(n, db, acts[0]);
      ActsBound(n, Do(db, acts[0]), acts[1..]);
    }
  }

  // A job that is still active can always be claimed or fail an attempt.
  lemma StuckIsSettled(n: nat, db: Db)
    requires Tracks(n, db) && forall a :: a != Cancel ==> !Enabled(db, a)
    ensures TerminalRun(db.run) && Count(db.jobs, IsAggregate()) == 1
    ensures forall j :: 0 <= j < |db.jobs| ==> db.jobs[j].Settled()
  {
    hide Count;
    forall j | 0 <= j < |db.jobs|
      ensures db.jobs[j].Settled()
    {
      assert !Enabled(db, Claim(j)) && !Enabled(db, FailAttempt(j));
    }
  }

  // An uncancelled run of n participants causes at most 3(n + 3) handler
  // executions and at most 6(n + 3) commits in all; and a history that cannot go
  // on has settled every job, with the run terminal and one aggregation made.
  lemma QueueDrains(n: nat, acts: seq<Act>)
    requires n >= 1 && Legal(Created(n), acts) && NeverCancelled(acts)
    ensures Executions(acts) <= 3 * (n + 3) && |acts| <= 6 * (n + 3)
    ensures var db := After(Created(n), acts);
            (forall a :: a != Cancel ==> !Enabled(db, a)) ==>
              && TerminalRun(db.run) && Count(db.jobs, IsAggregate()) == 1
              && forall j :: 0 <= j < |db.jobs| ==> db.jobs[j].status == Done || db.jobs[j].status == GivenUp
  {
    CreatedTracks(n);
    CreatedFuel(n);
    WorkBounds(n, Created(n), acts);
    ActsBound(n, Created(n), acts);
    AlwaysTracks(n, Created(n), acts);
    var db := After(Created(n), acts);
    CountZero(Created(n).jobs, InFlights());
    FlightsFuel(db.jobs);
    hide Legal, TotalFuel, Count;
    if forall a :: a != Cancel ==> !Enabled(db, a) { StuckIsSettled(n, db); }
  }
}
