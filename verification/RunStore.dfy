/** The worker, the simulation-run service and the cancel use case over the rows
    of one run: each method is one transaction (or one step of one) and is
    proved against what `RunQueue` says it commits. */
module RunStore {
  import opened Domain
  import opened RunQueue

  function CountEnded(parts: seq<Participant>): nat {
    if parts == [] then 0 else CountEnded(parts[..|parts| - 1]) + if parts[|parts| - 1].Ended? then 1 else 0
  }

  function CountErrored(parts: seq<Participant>): nat {
    if parts == [] then 0
    else CountErrored(parts[..|parts| - 1]) + if parts[|parts| - 1].Ended? && parts[|parts| - 1].errored then 1 else 0
  }

  // The counts the service compares say "all of them".
  lemma {:induction false} CountsMeanAll(parts: seq<Participant>)
    ensures CountEnded(parts) <= |parts| && (CountEnded(parts) == |parts| <==> forall i :: 0 <= i < |parts| ==> parts[i].Ended?)
    ensures CountErrored(parts) <= |parts| && (CountErrored(parts) == |parts| <==> AllErrored(parts))
  {
    if parts != [] {
      var init := parts[..|parts| - 1];
      CountsMeanAll(init);
      assert forall i :: 0 <= i < |init| ==> init[i] == parts[i];
      assert AllErrored(parts) ==> AllErrored(init);
      assert AllErrored(init) && parts[|parts| - 1].Ended? && parts[|parts| - 1].errored ==> AllErrored(parts);
    }
  }

  class Store {
    var run: RunStatus
    var parts: seq<Participant>
    var jobs: seq<Job>

    function Snapshot(): Db
      reads this
    {
      Db(run, parts, jobs)
    }

    // The fan-out of a new run: a participant row and a job for each participant.
    constructor (populationSize: nat)
      ensures Snapshot() == Created(populationSize)
    {
      run, parts, jobs := Running, [], [];
      new;
      for i := 0 to populationSize
        invariant Snapshot() == Created(i)
      {
        parts := parts + [Waiting];
        Enqueue(Simulate(i));
        assert Created(i + 1).parts == Created(i).parts + [Waiting];
        assert Created(i + 1).jobs == Created(i).jobs + [Fresh(Simulate(i))];
      }
    }

    method Enqueue(kind: Kind)
      modifies this`jobs
      ensures jobs == old(jobs) + [Fresh(kind)]
    {
      jobs := jobs + [Fresh(kind)];
    }

    method IsRunComplete() returns (complete: bool)
      ensures complete <==> Complete(parts)
    {
      CountsMeanAll(parts);
      var total, terminal := |parts|, CountEnded(parts);
      complete := total > 0 && terminal == total;
    }

    method FinalizeRun()
      modifies this`run
      ensures run == FinalStatus(old(run), parts)
    {
      if run == Cancelling {
        run := Cancelled;
      } else {
        CountsMeanAll(parts);
        var errored, total := CountErrored(parts), |parts|;
        run := if total == 0 || errored == total then Failed else Completed;
      }
    }

    // The "am I the last participant?" bookkeeping.
    method FinalizeRunAndNotify() returns (completed: nat, total: nat)
      modifies this
      ensures Snapshot() == Finalized(old(Snapshot()))
      ensures completed == CountEnded(parts) && total == |parts|
    {
      var complete := IsRunComplete();
      if complete {
        FinalizeRun();
        if run == Completed || run == Failed {
          Enqueue(Aggregate);
        }
      }
      completed, total := CountEnded(parts), |parts|;
    }

    method CompleteParticipantRun(p: nat, ending: Ending, errored: bool)
      requires p < |parts|
      modifies this`parts
      ensures parts == old(parts)[p := Ended(ending, errored)]
    {
      parts := parts[p := Ended(ending, errored)];
    }

    method HandleSimulateParticipant(p: nat, ending: Ending)
      requires p < |parts|
      modifies this
      ensures Snapshot() == Ends(old(Snapshot()), p, Ended(ending, false))
    {
      CompleteParticipantRun(p, ending, false);
      var completed, total := FinalizeRunAndNotify();
    }

    method HandlePermanentFailure(p: nat)
      requires p < |parts|
      modifies this
      ensures Snapshot() == Ends(old(Snapshot()), p, GiveUpPart(old(parts[p])))
    {
      if !parts[p].Ended? {
        CompleteParticipantRun(p, EndFailed, true);
      } else {
        assert parts == parts[p := parts[p]];
      }
      var completed, total := FinalizeRunAndNotify();
    }

    // The oldest pending job, taken over by a worker.
    method ClaimOneJob() returns (r: Option<nat>)
      modifies this`jobs
      ensures r.None? ==> jobs == old(jobs) && forall j :: 0 <= j < |jobs| ==> jobs[j].status != Pending
      ensures r.Some? ==>
                && Enabled(old(Snapshot()), Claim(r.value))
                && (forall j :: 0 <= j < r.value ==> old(jobs)[j].status != Pending)
                && Snapshot() == SetStatus(old(Snapshot()), r.value, InFlight, old(jobs)[r.value].attempts)
    {
      for j := 0 to |jobs|
        invariant jobs == old(jobs) && forall i :: 0 <= i < j ==> jobs[i].status != Pending
      {
        if jobs[j].status == Pending {
          jobs := jobs[j := jobs[j].(status := InFlight)];
          return Some(j);
        }
      }
      return None;
    }

    // One claimed job: its handler succeeds with an ending, or fails this attempt.
    // The rows change only as the transaction that commits leaves them.
    method ProcessJob(j: nat, handled: Option<Ending>)
      requires WellPlaced(Snapshot()) && Enabled(Snapshot(), FailAttempt(j))
      modifies this
      ensures Snapshot() == Do(old(Snapshot()), if handled.Some? then Succeed(j, handled.value) else FailAttempt(j))
    {
      var job := jobs[j];
      if handled.Some? {
        match job.kind {
          case Simulate(p) => HandleSimulateParticipant(p, handled.value);
          case Aggregate => Enqueue(Validate);
          case Validate => Enqueue(Insights);
          case Insights =>
        }
        jobs := jobs[j := jobs[j].(status := Done)];
        EndsCommutes(old(Snapshot()), j, Done, job.attempts);
      } else {
        var attempts := job.attempts + 1;
        jobs := jobs[j := job.(status := if attempts < MAX_ATTEMPTS then Pending else GivenUp, attempts := attempts)];
        if attempts >= MAX_ATTEMPTS && job.kind.Simulate? {
          HandlePermanentFailure(job.kind.participant);
        }
      }
    }

    // Refused once the run is terminal.
    method CancelRun() returns (accepted: bool)
      requires WellPlaced(Snapshot())
      modifies this
      ensures accepted <==> !TerminalRun(old(run))
      ensures Snapshot() == if accepted then Do(old(Snapshot()), Cancel) else old(Snapshot())
    {
      if run == Completed || run == Failed || run == Cancelled {
        return false;
      }
      run := Cancelling;
      jobs := DropPending(jobs);
      parts := AbandonWaiting(parts);
      var complete := IsRunComplete();
      if complete {
        FinalizeRun();
      }
      return true;
    }
  }

  // Marking the job before or after the finalization makes no difference.
  lemma EndsCommutes(db: Db, j: nat, status: JobStatus, attempts: nat)
    requires j < |db.jobs|
    ensures forall p, ended :: 0 <= p < |db.parts| ==>
              j < |Ends(db, p, ended).jobs|
              && Ends(SetStatus(db, j, status, attempts), p, ended) == SetStatus(Ends(db, p, ended), j, status, attempts)
    ensures forall more: seq<Job> :: (db.jobs + more)[j := db.jobs[j].(status := status, attempts := attempts)] ==
                                     SetStatus(db, j, status, attempts).jobs + more
  {}
}
