/** What cancelling a run settles, and what it does not. */
module RunCancel {
  import opened RunQueue
  import opened RunSafety

  // No participant's job is being worked on.
  predicate NobodyInFlight(n: nat, db: Db)
    requires n <= |db.jobs|
  {
    forall p :: 0 <= p < n ==> db.jobs[p].status != InFlight
  }

  // Cancelling ends every waiting participant at once, so the run is CANCELLED
  // by the same commit: it never stays CANCELLING.
  lemma CancelIsImmediate(n: nat, db: Db)
    requires Consistent(n, db) && Enabled(db, Cancel)
    ensures Do(db, Cancel).run == Cancelled && Complete(Do(db, Cancel).parts)
    ensures forall p :: 0 <= p < n && db.parts[p].Ended? ==> Do(db, Cancel).parts[p] == db.parts[p]
    ensures |db.jobs| == n && forall p :: 0 <= p < n ==> Do(db, Cancel).jobs[p].status != Pending
  {}

  // A job in flight at the cancellation finalizes the run once more.
  lemma LateFinishReopens(n: nat, db: Db, j: nat)
    requires Consistent(n, db) && Enabled(db, Cancel) && j < n && db.jobs[j].status == InFlight
    ensures var cancelled := Do(db, Cancel);
            var late := [Succeed(j, EndCompleted)];
            Legal(cancelled, late) && After(cancelled, late).run == Completed
            && |After(cancelled, late).jobs| == |db.jobs| + 1 && After(cancelled, late).jobs[|db.jobs|] == Fresh(Aggregate)
  {
    var cancelled := Do(db, Cancel);
    var late := [Succeed(j, EndCompleted)];
    assert Enabled(cancelled, late[0]) && WellPlaced(cancelled);
    var after := Do(cancelled, late[0]);
    assert !after.parts[j].errored;
    assert late[1..] == [];
    assert Legal(after, []);
    assert After(cancelled, late) == After(after, late[1..]);
  }

  // It happens to a created run: its only participant is claimed, the run is
  // cancelled, and the participant completes.
  lemma CancelledRunCompletes()
    ensures var acts := [Claim(0), Cancel, Succeed(0, EndCompleted)];
            Legal(Created(1), acts) && After(Created(1), acts).run == Completed
  {
    var claimed := Do(Created(1), Claim(0));
    CreatedConsistent(1);
    DoConsistent(1, Created(1), Claim(0));
    var rest := [Cancel, Succeed(0, EndCompleted)];
    assert [Claim(0), Cancel, Succeed(0, EndCompleted)][1..] == rest;
    assert rest[1..] == [Succeed(0, EndCompleted)];
    assert Enabled(Created(1), Claim(0)) && WellPlaced(Created(1));
    assert Enabled(claimed, Cancel) && WellPlaced(claimed);
    LateFinishReopens(1, claimed, 0);
    hide Do;
  }

  // Nothing more can happen to a cancelled run that had no job in flight.
  lemma NothingLeft(n: nat, db: Db, acts: seq<Act>)
    requires Consistent(n, db) && Enabled(db, Cancel) && NobodyInFlight(n, db)
    requires Legal(Do(db, Cancel), acts)
    ensures acts == []
  {
    CancelIsImmediate(n, db);
  }

  // A cancelled run stays CANCELLED in every continuation if and only if no
  // participant's job was in flight when the cancellation committed.
  lemma StaysCancelledIff(n: nat, db: Db)
    requires Consistent(n, db) && Enabled(db, Cancel)
    ensures n <= |db.jobs|
    ensures (forall acts :: Legal(Do(db, Cancel), acts) ==> After(Do(db, Cancel), acts).run == Cancelled) <==> NobodyInFlight(n, db)
  {
    CancelIsImmediate(n, db);
    if NobodyInFlight(n, db) {
      forall acts | Legal(Do(db, Cancel), acts)
        ensures After(Do(db, Cancel), acts).run == Cancelled
      {
        NothingLeft(n, db, acts);
      }
    } else {
      var j :| 0 <= j < n && db.jobs[j].status == InFlight;
      LateFinishReopens(n, db, j);
    }
  }

  // All participants have ended and no run status blocks the aggregation.
  ghost predicate Over(n: nat, db: Db) {
    Consistent(n, db) && Complete(db.parts)
  }

  ghost function Aggregations(db: Db): nat {
    Count(db.jobs, IsAggregate())
  }

  ghost function Settlements(db: Db): nat {
    Count(db.jobs, IsSettled())
  }

  lemma LateSuccess(n: nat, db: Db, j: nat, ending: Ending)
    requires Over(n, db) && Enabled(db, Succeed(j, ending))
    ensures WellPlaced(db)
    ensures Aggregations(Do(db, Succeed(j, ending))) - Aggregations(db) ==
            Settlements(Do(db, Succeed(j, ending))) - Settlements(db)
  {
    hide Count;
    var done := SetStatus(db, j, Done, db.jobs[j].attempts);
    SettledLate(db, j, done.jobs[j]);
    if j >= n {
      var more := Chained(db.jobs[j].kind);
      if more == [] { NoMore(done); }
      else {
        assert more == [more[0]];
        CountAppend(done.jobs, more[0], IsAggregate());
        CountAppend(done.jobs, more[0], IsSettled());
      }
    }
  }

  lemma LateFailure(n: nat, db: Db, j: nat)
    requires Over(n, db) && Enabled(db, FailAttempt(j))
    ensures WellPlaced(db)
    ensures Aggregations(Do(db, FailAttempt(j))) - Aggregations(db) == Settlements(Do(db, FailAttempt(j))) - Settlements(db)
  {
    hide Count;
    var attempts := db.jobs[j].attempts + 1;
    SettledLate(db, j, db.jobs[j].(status := if attempts < MAX_ATTEMPTS then Pending else GivenUp, attempts := attempts));
  }

  // Once all participants have ended, each job settled late adds one aggregation.
  lemma LateSettlement(n: nat, db: Db, a: Act)
    requires Over(n, db) && Enabled(db, a)
    ensures WellPlaced(db) && Over(n, Do(db, a))
    ensures Aggregations(Do(db, a)) - Aggregations(db) == Settlements(Do(db, a)) - Settlements(db)
  {
    DoConsistent(n, db, a);
    match a
    case Claim(j) =>
      CountUpdate(db.jobs, j, db.jobs[j].(status := InFlight), IsAggregate());
      CountUpdate(db.jobs, j, db.jobs[j].(status := InFlight), IsSettled());
    case Succeed(j, ending) => LateSuccess(n, db, j, ending);
    case FailAttempt(j) => LateFailure(n, db, j);
    case Cancel =>
  }

  lemma SettledLate(db: Db, j: nat, job: Job)
    requires j < |db.jobs| && job.kind == db.jobs[j].kind && db.jobs[j].status == InFlight
    ensures Count(db.jobs[j := job], IsAggregate()) == Count(db.jobs, IsAggregate())
    ensures Count(db.jobs[j := job], IsSettled()) ==
            Count(db.jobs, IsSettled()) + if job.kind.Simulate? && job.Settled() then 1 else 0
    ensures Count(db.jobs[j := job] + [Fresh(Aggregate)], IsAggregate()) == Count(db.jobs, IsAggregate()) + 1
    ensures Count(db.jobs[j := job] + [Fresh(Aggregate)], IsSettled()) == Count(db.jobs[j := job], IsSettled())
  {
    CountUpdate(db.jobs, j, job, IsAggregate());
    CountUpdate(db.jobs, j, job, IsSettled());
    CountAppend(db.jobs[j := job], Fresh(Aggregate), IsAggregate());
    CountAppend(db.jobs[j := job], Fresh(Aggregate), IsSettled());
  }

  lemma {:induction false} LateSettlements(n: nat, db: Db, acts: seq<Act>)
    requires Over(n, db) && Legal(db, acts)
    ensures Aggregations(After(db, acts)) - Aggregations(db) == Settlements(After(db, acts)) - Settlements(db)
    decreases |acts|
  {
    hide Over, Aggregations, Settlements;
    if acts != [] {
      LateSettlement(n, db, acts[0]);
      LateSettlements(n, Do(db, acts[0]), acts[1..]);
    }
  }

  // After a cancellation the aggregation is enqueued once for every job that was
  // in flight and settles later: not at all, once, or several times.
  lemma AggregationsAfterCancel(n: nat, db: Db, acts: seq<Act>)
    requires Tracks(n, db) && Enabled(db, Cancel) && Legal(Do(db, Cancel), acts)
    ensures Aggregations(After(Do(db, Cancel), acts)) == Settlements(After(Do(db, Cancel), acts)) - Settlements(db)
  {
    DoConsistent(n, db, Cancel);
    CancelIsImmediate(n, db);
    LateSettlements(n, Do(db, Cancel), acts);
    DropAggregates(db.jobs);
  }

  lemma {:induction false} DropAggregates(jobs: seq<Job>)
    ensures Count(DropPending(jobs), IsAggregate()) == Count(jobs, IsAggregate())
    ensures Count(DropPending(jobs), IsSettled()) == Count(jobs, IsSettled())
  {
    if jobs != [] {
      DropAggregates(jobs[..|jobs| - 1]);
      assert DropPending(jobs)[..|jobs| - 1] == DropPending(jobs[..|jobs| - 1]);
    }
  }
}
