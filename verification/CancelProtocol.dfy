/** A cancellation beside open worker transactions. The use case reads the run's
    status without a lock and writes it later, so a worker may finalize the run
    in between. */
module CancelProtocol {
  import opened Domain
  import opened RunQueue
  import opened RunSafety
  import opened RunCancel
  import opened FinalizeProtocol

  // The unlocked read: a terminal run refuses the cancellation.
  predicate Accepts(s: Sys) {
    !TerminalRun(s.db.run)
  }

  // The write waits for the run row and for the participant rows that open
  // transactions have written.
  predicate CanWrite(s: Sys) {
    s.lock.None? && forall j :: j in s.txns ==> s.txns[j].phase in {Started, Doomed}
  }

  // The write and all that follows in its transaction, whatever became of the
  // status that was read.
  function CancelWrite(s: Sys): Sys {
    s.(db := CancelledDb(s.db))
  }

  lemma WriteKeeps(n: nat, s: Sys)
    requires SysInv(n, s) && CanWrite(s)
    ensures SysInv(n, CancelWrite(s))
    ensures CancelWrite(s).db.run == Cancelled && Complete(CancelWrite(s).db.parts)
  {
    var t := CancelWrite(s);
    forall j | j in t.txns
      ensures TxnInv(n, t, j)
    {
      assert TxnInv(n, s, j);
    }
  }

  // All participants' jobs are done or given up.
  predicate AllSettled(n: nat, db: Db) {
    n <= |db.jobs| && forall p :: 0 <= p < n ==> db.jobs[p].Settled()
  }

  // Only analysis jobs are left, and they neither reopen the run nor add an
  // aggregation.
  lemma AnalysisOnly(n: nat, db: Db, a: Act)
    requires Over(n, db) && AllSettled(n, db) && Enabled(db, a)
    ensures WellPlaced(db) && AllSettled(n, Do(db, a)) && Do(db, a).run == db.run
    ensures Aggregations(Do(db, a)) == Aggregations(db)
  {
    LateSettlement(n, db, a);
    SettlementsSame(db, a);
    hide Aggregations, Settlements;
  }

  lemma SettlementsSame(db: Db, a: Act)
    requires WellPlaced(db) && Enabled(db, a) && a != Cancel && !db.jobs[a.j].kind.Simulate?
    ensures Settlements(Do(db, a)) == Settlements(db)
  {
    hide Count;
    match a
    case Claim(j) => CountUpdate(db.jobs, j, db.jobs[j].(status := InFlight), IsSettled());
    case Succeed(j, ending) =>
      var done := SetStatus(db, j, Done, db.jobs[j].attempts);
      CountUpdate(db.jobs, j, done.jobs[j], IsSettled());
      CountAppend(done.jobs, Fresh(Validate), IsSettled());
      CountAppend(done.jobs, Fresh(Insights), IsSettled());
      NoMore(done);
    case FailAttempt(j) =>
      var attempts := db.jobs[j].attempts + 1;
      CountUpdate(db.jobs, j, db.jobs[j].(status := if attempts < MAX_ATTEMPTS then Pending else GivenUp, attempts := attempts),
                  IsSettled());
  }

  lemma {:induction false} AnalysisRuns(n: nat, db: Db, acts: seq<Act>)
    requires Over(n, db) && AllSettled(n, db) && Legal(db, acts)
    ensures After(db, acts).run == db.run && Aggregations(After(db, acts)) == Aggregations(db)
    decreases |acts|
  {
    hide Over, AllSettled, Aggregations;
    if acts != [] {
      AnalysisOnly(n, db, acts[0]);
      LateSettlement(n, db, acts[0]);
      AnalysisRuns(n, Do(db, acts[0]), acts[1..]);
    }
  }

  // While a cancelled run stays CANCELLED no aggregation is made: the commit that
  // makes the first one also reopens the run.
  ghost predicate Unaggregated(db: Db) {
    db.run == Cancelled ==> Aggregations(db) == 0
  }

  lemma StepUnaggregated(n: nat, db: Db, a: Act)
    requires Over(n, db) && Unaggregated(db) && Enabled(db, a)
    ensures WellPlaced(db) && Over(n, Do(db, a)) && Unaggregated(Do(db, a))
  {
    LateSettlement(n, db, a);
    if !a.Cancel? && !db.jobs[a.j].kind.Simulate? {
      SettlementsSame(db, a);
    }
    hide Count, Aggregations, IsAggregate;
    if a.Claim? {
      AggregationsClaimed(db, a.j);
    }
    if a.FailAttempt? && db.jobs[a.j].attempts + 1 < MAX_ATTEMPTS {
      AggregationsRetried(db, a.j);
    }
  }

  lemma AggregationsClaimed(db: Db, j: nat)
    requires j < |db.jobs|
    ensures Aggregations(SetStatus(db, j, InFlight, db.jobs[j].attempts)) == Aggregations(db)
  {
    CountUpdate(db.jobs, j, db.jobs[j].(status := InFlight), IsAggregate());
  }

  lemma AggregationsRetried(db: Db, j: nat)
    requires j < |db.jobs|
    ensures Aggregations(SetStatus(db, j, Pending, db.jobs[j].attempts + 1)) == Aggregations(db)
  {
    CountUpdate(db.jobs, j, db.jobs[j].(status := Pending, attempts := db.jobs[j].attempts + 1), IsAggregate());
  }

  lemma {:induction false} StaysUnaggregated(n: nat, db: Db, acts: seq<Act>)
    requires Over(n, db) && Unaggregated(db) && Legal(db, acts)
    ensures Unaggregated(After(db, acts))
    decreases |acts|
  {
    hide Over, Unaggregated;
    if acts != [] {
      StepUnaggregated(n, db, acts[0]);
      StaysUnaggregated(n, Do(db, acts[0]), acts[1..]);
    }
  }

  lemma ReachedTracks(n: nat, s: Sys, moves: seq<Move>)
    requires SysInv(n, s) && Tracks(n, s.db) && LegalMoves(true, s, moves)
    ensures SysInv(n, Moved(true, s, moves)) && Tracks(n, Moved(true, s, moves).db)
  {
    MovesKeep(n, s, moves);
    var acts := Serializable(n, s, moves);
    AlwaysTracks(n, s.db, acts);
    hide SysInv, Tracks, Moved, After, LegalMoves;
  }

  // A write that finds the run unfinished is the atomic cancellation; one that
  // finds it finalized overwrites the status.
  lemma WriteMeans(n: nat, s: Sys)
    requires Tracks(n, s.db)
    ensures Accepts(s) ==> Enabled(s.db, Cancel) && WellPlaced(s.db) && CancelWrite(s).db == Do(s.db, Cancel)
    ensures !Accepts(s) ==> CancelWrite(s).db == s.db.(run := Cancelled)
    ensures Aggregations(CancelWrite(s).db) == (if Accepts(s) then 0 else 1)
    ensures !Accepts(s) <==> AllSettled(n, s.db)
  {
    DropAggregates(s.db.jobs);
    hide Count;
    if !Accepts(s) {
      assert CancelWrite(s).db.parts == s.db.parts;
      assert CancelWrite(s).db.jobs == s.db.jobs;
    } else {
      var p :| 0 <= p < n && s.db.parts[p] == Waiting;
      assert !s.db.jobs[p].Settled();
    }
  }

  // The workers move, the cancellation reads, the workers move on, it writes,
  // and they move on again. A run whose aggregation has been queued ends
  // CANCELLED exactly when it was finalized between the read and the write,
  // that is when the write found every participant's job settled.
  lemma CancelOverwritesIff(n: nat, before: seq<Move>, between: seq<Move>, after: seq<Move>)
    requires n >= 1 && LegalMoves(true, Start(n), before)
    requires var read := Moved(true, Start(n), before); Accepts(read) && LegalMoves(true, read, between)
    requires var written := Moved(true, Moved(true, Start(n), before), between);
             CanWrite(written) && LegalMoves(true, CancelWrite(written), after)
    ensures var read := Moved(true, Start(n), before);
            var written := Moved(true, read, between);
            var final := Moved(true, CancelWrite(written), after).db;
            && (final.run == Cancelled && Aggregations(final) > 0 <==> AllSettled(n, written.db))
            && (AllSettled(n, written.db) <==> TerminalRun(written.db.run) && !TerminalRun(read.db.run))
            && (AllSettled(n, written.db) ==> Aggregations(final) == 1)
            && (!AllSettled(n, written.db) ==> WellPlaced(written.db) && CancelWrite(written).db == Do(written.db, Cancel))
  {
    StartInv(n);
    CreatedTracks(n);
    ReachedTracks(n, Start(n), before);
    var read := Moved(true, Start(n), before);
    ReachedTracks(n, read, between);
    var written := Moved(true, read, between);
    WriteMeans(n, written);
    WriteKeeps(n, written);
    var acts := Serializable(n, CancelWrite(written), after);
    SettledAfter(n, written);
    hide Moved, LegalMoves, SysInv, Tracks, AllSettled, CancelWrite;
    if AllSettled(n, written.db) {
      AnalysisRuns(n, CancelWrite(written).db, acts);
    } else {
      StaysUnaggregated(n, CancelWrite(written).db, acts);
    }
  }

  lemma SettledAfter(n: nat, s: Sys)
    requires Tracks(n, s.db) && SysInv(n, CancelWrite(s))
    ensures Over(n, CancelWrite(s).db)
    ensures AllSettled(n, s.db) ==> AllSettled(n, CancelWrite(s).db)
  {}

  // ---- the overwrite happens ----

  // The only participant finishes between the read and the write.
  const FINISHES := [Begin(0), WriteEnd(0, EndCompleted), TakeLock(0), Decide(0), Commit(0)]

  lemma MoveThen(s: Sys, m: Move, next: Sys, moves: seq<Move>)
    requires CanMove(true, s, m) && Apply(s, m) == next && LegalMoves(true, next, moves)
    ensures LegalMoves(true, s, [m] + moves) && Moved(true, s, [m] + moves) == Moved(true, next, moves)
  {
    assert ([m] + moves)[1..] == moves;
    hide CanMove, Apply;
  }

  const ENDED := Ended(EndCompleted, false)
  const FLYING := Db(Running, [Waiting], [Job(RunQueue.Simulate(0), InFlight, 0)])
  const BEGUN := Sys(FLYING, None, map[0 := Txn(Started, Waiting, false, None)])
  const WRITTEN := Sys(FLYING, None, map[0 := Txn(Wrote, ENDED, false, None)])
  const HELD := Sys(FLYING, Some(0), map[0 := Txn(Locked, ENDED, false, None)])
  const RECHECKED := Sys(FLYING, Some(0), map[0 := Txn(Decided, ENDED, false, Some(Completed))])
  const FINISHED := Sys(Db(Completed, [ENDED], [Job(RunQueue.Simulate(0), Done, 0), Fresh(Aggregate)]), None, map[])

  lemma FirstHalf()
    ensures CanMove(true, Start(1), Begin(0)) && Apply(Start(1), Begin(0)) == BEGUN
    ensures CanMove(true, BEGUN, WriteEnd(0, EndCompleted)) && Apply(BEGUN, WriteEnd(0, EndCompleted)) == WRITTEN
    ensures CanMove(true, WRITTEN, TakeLock(0)) && Apply(WRITTEN, TakeLock(0)) == HELD
  {
    assert Start(1).db == Db(Running, [Waiting], [Fresh(RunQueue.Simulate(0))]);
  }

  lemma SecondHalf()
    ensures CanMove(true, HELD, Decide(0)) && Apply(HELD, Decide(0)) == RECHECKED
    ensures CanMove(true, RECHECKED, Commit(0)) && Apply(RECHECKED, Commit(0)) == FINISHED
  {
    assert FLYING.parts[0 := ENDED] == [ENDED];
    assert !AllErrored([ENDED]) by { assert [ENDED][0] == ENDED; }
    assert RECHECKED.txns - {0} == map[];
  }

  lemma OneFinishes()
    ensures LegalMoves(true, Start(1), FINISHES) && Moved(true, Start(1), FINISHES) == FINISHED
  {
    FirstHalf();
    SecondHalf();
    hide CanMove, Apply, LegalMoves, Moved;
    NoMoves(FINISHED);
    MoveThen(RECHECKED, Commit(0), FINISHED, []);
    MoveThen(HELD, Decide(0), RECHECKED, [Commit(0)] + []);
    MoveThen(WRITTEN, TakeLock(0), HELD, [Decide(0)] + ([Commit(0)] + []));
    MoveThen(BEGUN, WriteEnd(0, EndCompleted), WRITTEN, [TakeLock(0)] + ([Decide(0)] + ([Commit(0)] + [])));
    MoveThen(Start(1), Begin(0), BEGUN, [WriteEnd(0, EndCompleted)] + ([TakeLock(0)] + ([Decide(0)] + ([Commit(0)] + []))));
    assert FINISHES ==
           [Begin(0)] + ([WriteEnd(0, EndCompleted)] + ([TakeLock(0)] + ([Decide(0)] + ([Commit(0)] + []))));
  }

  lemma NoMoves(s: Sys)
    ensures LegalMoves(true, s, []) && Moved(true, s, []) == s
  {}

  // A run that has completed and queued its aggregation is overwritten with
  // CANCELLED: the cancellation read the status before the last commit.
  lemma FinishedRunIsCancelled()
    ensures LegalMoves(true, Start(1), []) && Accepts(Moved(true, Start(1), []))
    ensures LegalMoves(true, Moved(true, Start(1), []), FINISHES)
    ensures var written := Moved(true, Moved(true, Start(1), []), FINISHES);
            && written.db.run == Completed && CanWrite(written) && AllSettled(1, written.db)
            && LegalMoves(true, CancelWrite(written), [])
            && Moved(true, CancelWrite(written), []).db.run == Cancelled
            && Aggregations(Moved(true, CancelWrite(written), []).db) == 1
  {
    NoMoves(Start(1));
    OneFinishes();
    hide LegalMoves, Moved;
    var written := Moved(true, Start(1), FINISHES);
    NoMoves(CancelWrite(written));
    hide Aggregations;
    CancelOverwritesIff(1, [], FINISHES, []);
  }
}
