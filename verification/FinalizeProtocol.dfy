/** Concurrent workers finishing the participants of one run. Each works in its
    own transaction: write the participant's end, lock the run row, recount over
    the committed rows and its own write, perhaps finalize, commit. With the
    lock, every interleaving is a history of atomic commits. */
module FinalizeProtocol {
  import opened Domain
  import opened RunQueue
  import opened RunSafety

  datatype Phase = Started | Doomed | Wrote | Locked | Decided

  // An open transaction: its own write, whether it gives the job up, and the
  // status it means to write to the run (nothing when the run is not complete).
  datatype Txn = Txn(phase: Phase, part: Participant, giveUp: bool, decision: Option<RunStatus>)

  // Committed rows, the holder of the run row's lock, the open transactions.
  datatype Sys = Sys(db: Db, lock: Option<nat>, txns: map<nat, Txn>)

  datatype Move =
    | Begin(j: nat)
    | WriteEnd(j: nat, ending: Ending)
    | TakeLock(j: nat)
    | Decide(j: nat)
    | Commit(j: nat)
    | Abort(j: nat)
    | WriteFailure(j: nat)
    | Chain(act: Act)

  predicate InPhase(s: Sys, j: nat, phase: Phase) {
    j in s.txns && s.txns[j].phase == phase
  }

  predicate SimulateJob(db: Db, j: nat) {
    j < |db.jobs| && j < |db.parts| && db.jobs[j].kind == RunQueue.Simulate(j)
  }

  predicate CanMove(locking: bool, s: Sys, m: Move) {
    match m
    case Begin(j) => SimulateJob(s.db, j) && s.db.jobs[j].status == Pending && j !in s.txns
    case WriteEnd(j, _) => SimulateJob(s.db, j) && InPhase(s, j, Started)
    case TakeLock(j) => SimulateJob(s.db, j) && InPhase(s, j, Wrote) && (locking ==> s.lock == None)
    case Decide(j) => SimulateJob(s.db, j) && InPhase(s, j, Locked)
    case Commit(j) => SimulateJob(s.db, j) && InPhase(s, j, Decided)
    case Abort(j) => SimulateJob(s.db, j) && j in s.txns && !s.txns[j].giveUp
    case WriteFailure(j) => SimulateJob(s.db, j) && InPhase(s, j, Doomed)
    case Chain(a) => WellPlaced(s.db) && Enabled(s.db, a) && a != Cancel && !s.db.jobs[a.j].kind.Simulate?
  }

  // The recount: committed rows plus the transaction's own write.
  function Decision(db: Db, p: nat, part: Participant): Option<RunStatus>
    requires p < |db.parts|
  {
    var view := db.parts[p := part];
    if Complete(view) then Some(FinalStatus(db.run, view)) else None
  }

  function Release(s: Sys, j: nat): Option<nat> {
    if s.lock == Some(j) then None else s.lock
  }

  // What a commit publishes.
  function Published(db: Db, j: nat, t: Txn): Db
    requires SimulateJob(db, j)
  {
    var job := db.jobs[j];
    var settled := if t.giveUp then SetStatus(db, j, GivenUp, job.attempts + 1) else SetStatus(db, j, Done, job.attempts);
    var rows := settled.(parts := db.parts[j := t.part]);
    if t.decision.None? then rows
    else Db(t.decision.value, rows.parts, if t.decision.value == Cancelled then rows.jobs else rows.jobs + [Fresh(Aggregate)])
  }

  function Apply(s: Sys, m: Move): Sys
    requires CanMove(false, s, m)
  {
    match m
    case Begin(j) =>
      s.(db := SetStatus(s.db, j, InFlight, s.db.jobs[j].attempts), txns := s.txns[j := Txn(Started, Waiting, false, None)])
    case WriteEnd(j, ending) => s.(txns := s.txns[j := s.txns[j].(phase := Wrote, part := Ended(ending, false))])
    case TakeLock(j) => s.(lock := Some(j), txns := s.txns[j := s.txns[j].(phase := Locked)])
    case Decide(j) => s.(txns := s.txns[j := s.txns[j].(phase := Decided, decision := Decision(s.db, j, s.txns[j].part))])
    case Commit(j) => Sys(Published(s.db, j, s.txns[j]), Release(s, j), s.txns - {j})
    case Abort(j) =>
      var attempts := s.db.jobs[j].attempts + 1;
      if attempts < MAX_ATTEMPTS then Sys(SetStatus(s.db, j, Pending, attempts), Release(s, j), s.txns - {j})
      else Sys(s.db, Release(s, j), s.txns[j := Txn(Doomed, Waiting, true, None)])
    case WriteFailure(j) => s.(txns := s.txns[j := s.txns[j].(phase := Wrote, part := GiveUpPart(s.db.parts[j]))])
    case Chain(a) => s.(db := Do(s.db, a))
  }

  function Start(n: nat): Sys {
    Sys(Created(n), None, map[])
  }

  ghost predicate LegalMoves(locking: bool, s: Sys, moves: seq<Move>)
    decreases |moves|
  {
    moves == [] || (CanMove(locking, s, moves[0]) && LegalMoves(locking, Apply(s, moves[0]), moves[1..]))
  }

  ghost function Moved(locking: bool, s: Sys, moves: seq<Move>): Sys
    requires LegalMoves(locking, s, moves)
    decreases |moves|
  {
    if moves == [] then s else Moved(locking, Apply(s, moves[0]), moves[1..])
  }

  // ---- with the lock ----

  ghost predicate TxnInv(n: nat, s: Sys, j: nat)
    requires j in s.txns
  {
    var t := s.txns[j];
    && j < n && j < |s.db.jobs| && j < |s.db.parts| && s.db.jobs[j].status == InFlight
    && (t.giveUp ==> s.db.jobs[j].attempts + 1 == MAX_ATTEMPTS)
    && (t.phase == Started ==> !t.giveUp)
    && (t.phase == Doomed ==> t.giveUp)
    && (t.phase in {Wrote, Locked, Decided} ==>
          if t.giveUp then t.part == GiveUpPart(s.db.parts[j]) else t.part.Ended? && !t.part.errored)
    && (t.phase in {Locked, Decided} ==> s.lock == Some(j))
    && (t.phase == Decided ==> t.decision == Decision(s.db, j, t.part))
  }

  ghost predicate SysInv(n: nat, s: Sys) {
    && Consistent(n, s.db)
    && (forall j :: j in s.txns ==> TxnInv(n, s, j))
    && (s.lock.Some? ==> s.lock.value in s.txns && s.txns[s.lock.value].phase in {Locked, Decided})
  }

  // The atomic commit a move amounts to; most moves commit nothing.
  function CommitOf(s: Sys, m: Move): Option<Act>
    requires CanMove(false, s, m)
  {
    match m
    case Begin(j) => Some(Claim(j))
    case Commit(j) =>
      if s.txns[j].giveUp then Some(FailAttempt(j))
      else Some(Succeed(j, if s.txns[j].part.Ended? then s.txns[j].part.ending else EndFailed))
    case Abort(j) => if s.db.jobs[j].attempts + 1 < MAX_ATTEMPTS then Some(FailAttempt(j)) else None
    case Chain(a) => Some(a)
    case _ => None
  }

  // The holder's decision is still right when it commits: the commit is the
  // atomic transaction.
  lemma CommitIsAtomic(n: nat, s: Sys, j: nat)
    requires SysInv(n, s) && CanMove(true, s, Commit(j))
    ensures var a := CommitOf(s, Commit(j)).value;
            WellPlaced(s.db) && Enabled(s.db, a) && a != Cancel && Published(s.db, j, s.txns[j]) == Do(s.db, a)
  {
    assert TxnInv(n, s, j);
  }

  lemma MoveIsAtomic(n: nat, s: Sys, m: Move)
    requires SysInv(n, s) && CanMove(true, s, m)
    ensures CommitOf(s, m).None? ==> Apply(s, m).db == s.db
    ensures CommitOf(s, m).Some? ==>
              && WellPlaced(s.db) && Enabled(s.db, CommitOf(s, m).value) && CommitOf(s, m).value != Cancel
              && Apply(s, m).db == Do(s.db, CommitOf(s, m).value)
  {
    if m.Commit? {
      CommitIsAtomic(n, s, m.j);
    } else if m.Abort? {
      assert TxnInv(n, s, m.j);
    }
    hide Published;
  }

  // A transaction of another participant does not notice a commit made while
  // nobody else holds the lock.
  lemma OthersUndisturbed(n: nat, s: Sys, t: Sys, i: nat)
    requires i in s.txns && i in t.txns && s.txns[i] == t.txns[i] && TxnInv(n, s, i)
    requires i < |t.db.jobs| && i < |t.db.parts| && t.db.jobs[i] == s.db.jobs[i]
    requires t.db.parts[i] == s.db.parts[i]
    requires s.txns[i].phase in {Locked, Decided} ==> t.lock == s.lock
    requires s.txns[i].phase == Decided ==> t.db.parts == s.db.parts && t.db.run == s.db.run
    ensures TxnInv(n, t, i)
  {}

  // The participant whose transaction a move advances.
  function Mover(m: Move): Option<nat> {
    match m
    case Begin(j) => Some(j)
    case WriteEnd(j, _) => Some(j)
    case TakeLock(j) => Some(j)
    case Decide(j) => Some(j)
    case Commit(j) => Some(j)
    case Abort(j) => Some(j)
    case WriteFailure(j) => Some(j)
    case Chain(_) => None
  }

  lemma MoveEffect(n: nat, s: Sys, m: Move)
    requires Shape(n, s.db) && CanMove(true, s, m)
    ensures var t := Apply(s, m);
            && |t.db.parts| == |s.db.parts| && |t.db.jobs| >= |s.db.jobs|
            && (forall i :: 0 <= i < n && Mover(m) != Some(i) ==>
                  t.db.jobs[i] == s.db.jobs[i] && t.db.parts[i] == s.db.parts[i])
            && (!m.Commit? ==> t.db.parts == s.db.parts && t.db.run == s.db.run)
            && (forall i :: i in t.txns && Mover(m) != Some(i) ==> i in s.txns && t.txns[i] == s.txns[i])
  {}

  lemma ChainEffect(n: nat, s: Sys, a: Act)
    requires Shape(n, s.db) && CanMove(true, s, Chain(a))
    ensures var t := Apply(s, Chain(a));
            t.lock == s.lock && t.txns == s.txns && t.db.parts == s.db.parts && t.db.run == s.db.run
  {}

  // The lock moves only between the mover and nobody.
  lemma LockEffect(n: nat, s: Sys, m: Move, i: nat)
    requires SysInv(n, s) && CanMove(true, s, m) && i in s.txns && Mover(m) != Some(i)
    requires s.txns[i].phase in {Locked, Decided}
    ensures Apply(s, m).lock == s.lock && !m.Commit?
  {
    assert TxnInv(n, s, i);
    if Mover(m).Some? && Mover(m).value in s.txns { assert TxnInv(n, s, Mover(m).value); }
    if m.Chain? { ChainEffect(n, s, m.act); }
    hide Consistent, Published, Decision;
  }

  lemma OthersKept(n: nat, s: Sys, m: Move, i: nat)
    requires SysInv(n, s) && CanMove(true, s, m) && i in Apply(s, m).txns && Mover(m) != Some(i)
    ensures TxnInv(n, Apply(s, m), i)
  {
    MoveEffect(n, s, m);
    assert TxnInv(n, s, i);
    if s.txns[i].phase in {Locked, Decided} { LockEffect(n, s, m, i); }
    var t := Apply(s, m);
    hide Apply, CanMove, Consistent, TxnInv;
    OthersUndisturbed(n, s, t, i);
  }

  lemma OwnKept(n: nat, s: Sys, m: Move, j: nat)
    requires SysInv(n, s) && CanMove(true, s, m) && Mover(m) == Some(j) && j in Apply(s, m).txns
    ensures TxnInv(n, Apply(s, m), j)
  {
    if j in s.txns { assert TxnInv(n, s, j); }
    hide Published, Complete;
  }

  lemma LockKept(n: nat, s: Sys, m: Move)
    requires SysInv(n, s) && CanMove(true, s, m)
    ensures var t := Apply(s, m);
            t.lock.Some? ==> t.lock.value in t.txns && t.txns[t.lock.value].phase in {Locked, Decided}
  {
    if m.Chain? { ChainEffect(n, s, m.act); }
    hide Consistent, TxnInv, Published, Decision;
  }

  lemma MoveKeeps(n: nat, s: Sys, m: Move)
    requires SysInv(n, s) && CanMove(true, s, m)
    ensures SysInv(n, Apply(s, m))
  {
    MoveIsAtomic(n, s, m);
    if CommitOf(s, m).Some? { DoConsistent(n, s.db, CommitOf(s, m).value); }
    LockKept(n, s, m);
    var t := Apply(s, m);
    forall i | i in t.txns
      ensures TxnInv(n, t, i)
    {
      if Mover(m) == Some(i) { OwnKept(n, s, m, i); } else { OthersKept(n, s, m, i); }
    }
    hide Consistent, TxnInv, CanMove, Apply, CommitOf;
  }

  lemma StartInv(n: nat)
    requires n >= 1
    ensures SysInv(n, Start(n))
  {
    CreatedConsistent(n);
  }

  lemma {:induction false} MovesKeep(n: nat, s: Sys, moves: seq<Move>)
    requires SysInv(n, s) && LegalMoves(true, s, moves)
    ensures SysInv(n, Moved(true, s, moves))
    decreases |moves|
  {
    hide SysInv;
    if moves != [] {
      MoveKeeps(n, s, moves[0]);
      MovesKeep(n, Apply(s, moves[0]), moves[1..]);
    }
  }

  // With the lock, the committed rows after any interleaving are those of an
  // uncancelled history of atomic commits.
  lemma {:induction false} Serializable(n: nat, s: Sys, moves: seq<Move>) returns (acts: seq<Act>)
    requires SysInv(n, s) && LegalMoves(true, s, moves)
    ensures Legal(s.db, acts) && NeverCancelled(acts) && After(s.db, acts) == Moved(true, s, moves).db
    decreases |moves|
  {
    if moves == [] {
      acts := [];
    } else {
      assert CanMove(false, s, moves[0]);
      hide SysInv, CanMove, Apply, Published;
      MoveIsAtomic(n, s, moves[0]);
      MoveKeeps(n, s, moves[0]);
      var rest := Serializable(n, Apply(s, moves[0]), moves[1..]);
      if CommitOf(s, moves[0]).None? {
        acts := rest;
      } else {
        acts := [CommitOf(s, moves[0]).value] + rest;
        assert acts[1..] == rest;
      }
    }
  }

  // Whatever the interleaving of the workers, the aggregation is enqueued at
  // most once; and once every participant's job has settled the run has been
  // finalized, correctly and exactly once.
  lemma NoLostFinalization(n: nat, moves: seq<Move>)
    requires n >= 1 && LegalMoves(true, Start(n), moves)
    ensures var db := Moved(true, Start(n), moves).db;
            && |db.jobs| >= n && Count(db.jobs, IsAggregate()) <= 1
            && ((forall p :: 0 <= p < n ==> db.jobs[p].Settled()) <==> TerminalRun(db.run))
            && (TerminalRun(db.run) ==>
                  && Count(db.jobs, IsAggregate()) == 1
                  && db.run == if (forall p :: 0 <= p < n ==> db.jobs[p].status == GivenUp) then Failed else Completed)
  {
    StartInv(n);
    var acts := Serializable(n, Start(n), moves);
    OneAggregation(n, acts);
  }

  // ---- no deadlock ----

  // A participant's job in flight is being worked on in an open transaction.
  ghost predicate FlightsOpen(n: nat, s: Sys) {
    n <= |s.db.jobs| && forall j :: 0 <= j < n && s.db.jobs[j].status == InFlight ==> j in s.txns
  }

  lemma MoveFlights(n: nat, s: Sys, m: Move)
    requires SysInv(n, s) && FlightsOpen(n, s) && CanMove(true, s, m)
    ensures FlightsOpen(n, Apply(s, m))
  {
    MoveEffect(n, s, m);
    var t := Apply(s, m);
    forall j | 0 <= j < n && t.db.jobs[j].status == InFlight
      ensures j in t.txns
    {
      if Mover(m) == Some(j) {
        MoverFlies(n, s, m, j);
      } else {
        OthersStay(s, m, j);
      }
    }
    hide SysInv, CanMove, Apply;
  }

  lemma MoverFlies(n: nat, s: Sys, m: Move, j: nat)
    requires Shape(n, s.db) && j < n && CanMove(true, s, m) && Mover(m) == Some(j)
    requires j < |Apply(s, m).db.jobs| && Apply(s, m).db.jobs[j].status == InFlight
    ensures j in Apply(s, m).txns
  {}

  lemma OthersStay(s: Sys, m: Move, j: nat)
    requires CanMove(true, s, m) && Mover(m) != Some(j) && j in s.txns
    ensures j in Apply(s, m).txns
  {}

  lemma {:induction false} MovesFlights(n: nat, s: Sys, moves: seq<Move>)
    requires SysInv(n, s) && FlightsOpen(n, s) && LegalMoves(true, s, moves)
    ensures FlightsOpen(n, Moved(true, s, moves))
    decreases |moves|
  {
    hide SysInv, FlightsOpen;
    if moves != [] {
      MoveKeeps(n, s, moves[0]);
      MoveFlights(n, s, moves[0]);
      MovesFlights(n, Apply(s, moves[0]), moves[1..]);
    }
  }

  // The move an open transaction can make, or its lock holder can.
  function Onward(s: Sys, j: nat): Move
    requires j in s.txns && (s.lock.Some? ==> s.lock.value in s.txns)
  {
    match s.txns[j].phase
    case Started => WriteEnd(j, EndCompleted)
    case Doomed => WriteFailure(j)
    case Wrote =>
      if s.lock.None? then TakeLock(j)
      else if s.txns[s.lock.value].phase == Locked then Decide(s.lock.value) else Commit(s.lock.value)
    case Locked => Decide(j)
    case Decided => Commit(j)
  }

  lemma OpenMovesOn(n: nat, s: Sys, j: nat)
    requires SysInv(n, s) && j in s.txns
    ensures CanMove(true, s, Onward(s, j))
  {
    assert TxnInv(n, s, j);
    if s.lock.Some? { assert TxnInv(n, s, s.lock.value); }
    hide Tracks, Published, Decision;
  }

  lemma StuckIsDone(n: nat, s: Sys)
    requires SysInv(n, s) && FlightsOpen(n, s) && Tracks(n, s.db) && forall m :: !CanMove(true, s, m)
    ensures forall j :: 0 <= j < |s.db.jobs| ==> s.db.jobs[j].Settled()
  {
    forall j | 0 <= j < |s.db.jobs|
      ensures s.db.jobs[j].Settled()
    {
      if j < n {
        if j in s.txns { OpenMovesOn(n, s, j); }
        assert !CanMove(true, s, Begin(j));
      } else {
        assert !CanMove(true, s, Chain(Claim(j))) && !CanMove(true, s, Chain(FailAttempt(j)));
      }
    }
    hide Count;
  }

  // The lock never leaves the workers waiting for each other: when no move is
  // possible, every job is settled and the run is finalized with its aggregation.
  lemma NoDeadlock(n: nat, moves: seq<Move>)
    requires n >= 1 && LegalMoves(true, Start(n), moves)
    ensures var s := Moved(true, Start(n), moves);
            (forall m :: !CanMove(true, s, m)) ==>
              && (forall j :: 0 <= j < |s.db.jobs| ==> s.db.jobs[j].Settled())
              && TerminalRun(s.db.run) && Count(s.db.jobs, IsAggregate()) == 1
  {
    StartInv(n);
    CreatedTracks(n);
    var s := Moved(true, Start(n), moves);
    MovesKeep(n, Start(n), moves);
    MovesFlights(n, Start(n), moves);
    NoLostFinalization(n, moves);
    var acts := Serializable(n, Start(n), moves);
    AlwaysTracks(n, Created(n), acts);
    hide SysInv, FlightsOpen, LegalMoves, Moved, Count, CanMove, Legal, After;
    if forall m :: !CanMove(true, s, m) {
      StuckIsDone(n, s);
      assert Tracks(n, s.db);
    }
  }
}
