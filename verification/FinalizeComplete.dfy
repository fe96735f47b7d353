/** The converse of serializability: every uncancelled history of atomic commits is
    one the interleaving workers can produce, ending by ending. */
module FinalizeComplete {
  import opened Domain
  import opened RunQueue
  import opened RunSafety
  import opened FinalizeProtocol

  // The open transactions are those of the jobs in flight, none of which has
  // written anything.
  ghost predicate Idle(n: nat, s: Sys) {
    && SysInv(n, s) && s.lock == None
    && (forall j :: j in s.txns ==> s.txns[j] == Txn(Started, Waiting, false, None))
    && (forall j :: 0 <= j < n && s.db.jobs[j].status == InFlight ==> j in s.txns)
  }

  lemma {:induction false} ThenMoves(s: Sys, a: seq<Move>, b: seq<Move>)
    requires LegalMoves(true, s, a) && LegalMoves(true, Moved(true, s, a), b)
    ensures LegalMoves(true, s, a + b) && Moved(true, s, a + b) == Moved(true, Moved(true, s, a), b)
    decreases |a|
  {
    if a == [] {
      assert a + b == b;
    } else {
      assert CanMove(false, s, a[0]);
      hide Apply, CanMove;
      ThenMoves(Apply(s, a[0]), a[1..], b);
      assert (a + b)[1..] == a[1..] + b;
    }
  }

  lemma OneMove(n: nat, s: Sys, m: Move)
    requires SysInv(n, s) && CanMove(true, s, m)
    ensures LegalMoves(true, s, [m]) && Moved(true, s, [m]) == Apply(s, m) && SysInv(n, Apply(s, m))
  {
    assert CanMove(false, s, m);
    hide SysInv, Apply, CanMove;
    MoveKeeps(n, s, m);
    assert [m][1..] == [];
    assert LegalMoves(true, Apply(s, m), []);
  }

  lemma IsSimulate(n: nat, s: Sys, j: nat)
    requires SysInv(n, s) && j < n
    ensures SimulateJob(s.db, j)
  {}

  // From a written end to the commit.
  lemma Finishing(n: nat, s: Sys, j: nat) returns (moves: seq<Move>)
    requires SysInv(n, s) && s.lock == None && j < n && InPhase(s, j, Wrote)
    ensures LegalMoves(true, s, moves)
    ensures WellPlaced(s.db) && Enabled(s.db, if s.txns[j].giveUp then FailAttempt(j) else Succeed(j, EndCompleted))
    ensures var t, part := Moved(true, s, moves), s.txns[j].part;
            && SysInv(n, t) && t.lock == None && t.txns == s.txns - {j}
            && t.db == Do(s.db, if s.txns[j].giveUp then FailAttempt(j) else Succeed(j, if part.Ended? then part.ending else EndFailed))
  {
    hide SysInv, TxnInv, Consistent, Decision, Published, Do;
    IsSimulate(n, s, j);
    OneMove(n, s, TakeLock(j));
    var locked := Apply(s, TakeLock(j));
    OneMove(n, locked, Decide(j));
    var decided := Apply(locked, Decide(j));
    OneMove(n, decided, Commit(j));
    CommitIsAtomic(n, decided, j);
    ThenMoves(s, [TakeLock(j)], [Decide(j)]);
    ThenMoves(s, [TakeLock(j)] + [Decide(j)], [Commit(j)]);
    moves := [TakeLock(j)] + [Decide(j)] + [Commit(j)];
    assert decided.txns - {j} == s.txns - {j};
  }

  lemma RealizeSuccess(n: nat, s: Sys, j: nat, ending: Ending) returns (moves: seq<Move>)
    requires Idle(n, s) && j < n && Enabled(s.db, Succeed(j, ending))
    ensures LegalMoves(true, s, moves) && WellPlaced(s.db)
    ensures var t := Moved(true, s, moves);
            SysInv(n, t) && t.lock == None && t.txns == s.txns - {j} && t.db == Do(s.db, Succeed(j, ending))
  {
    assert s.db.jobs[j].status == InFlight && |s.db.jobs| >= n;
    hide SysInv, TxnInv, Consistent, Do;
    IsSimulate(n, s, j);
    OneMove(n, s, WriteEnd(j, ending));
    var wrote := Apply(s, WriteEnd(j, ending));
    var rest := Finishing(n, wrote, j);
    ThenMoves(s, [WriteEnd(j, ending)], rest);
    moves := [WriteEnd(j, ending)] + rest;
    assert wrote.txns - {j} == s.txns - {j};
  }

  lemma RealizeFailure(n: nat, s: Sys, j: nat) returns (moves: seq<Move>)
    requires Idle(n, s) && j < n && Enabled(s.db, FailAttempt(j))
    ensures LegalMoves(true, s, moves) && WellPlaced(s.db)
    ensures var t := Moved(true, s, moves);
            SysInv(n, t) && t.lock == None && t.txns == s.txns - {j} && t.db == Do(s.db, FailAttempt(j))
  {
    IsSimulate(n, s, j);
    assert j in s.txns && !s.txns[j].giveUp && WellPlaced(s.db);
    var attempts := s.db.jobs[j].attempts + 1;
    assert attempts >= MAX_ATTEMPTS ==> attempts == MAX_ATTEMPTS;
    hide SysInv, TxnInv, Consistent, WellPlaced;
    OneMove(n, s, Abort(j));
    var aborted := Apply(s, Abort(j));
    if attempts < MAX_ATTEMPTS {
      moves := [Abort(j)];
    } else {
      hide Do;
      OneMove(n, aborted, WriteFailure(j));
      var wrote := Apply(aborted, WriteFailure(j));
      var rest := Finishing(n, wrote, j);
      ThenMoves(s, [Abort(j)], [WriteFailure(j)]);
      ThenMoves(s, [Abort(j)] + [WriteFailure(j)], rest);
      moves := [Abort(j)] + [WriteFailure(j)] + rest;
      assert wrote.txns - {j} == s.txns - {j};
    }
  }

  // One atomic commit, made by an uninterrupted transaction.
  lemma Realize(n: nat, s: Sys, a: Act) returns (moves: seq<Move>)
    requires Idle(n, s) && Enabled(s.db, a) && a != Cancel
    ensures LegalMoves(true, s, moves) && WellPlaced(s.db)
    ensures Moved(true, s, moves).db == Do(s.db, a) && Idle(n, Moved(true, s, moves))
  {
    assert WellPlaced(s.db) && |s.db.jobs| >= n;
    match a
    case Claim(j) => moves := RealizeClaim(n, s, j);
    case Succeed(j, ending) =>
      if j < n {
        moves := RealizeSuccess(n, s, j, ending);
        StaysIdle(n, s, Moved(true, s, moves), a);
      } else { moves := RealizeAnalysis(n, s, a); }
    case FailAttempt(j) =>
      if j < n {
        moves := RealizeFailure(n, s, j);
        StaysIdle(n, s, Moved(true, s, moves), a);
      } else { moves := RealizeAnalysis(n, s, a); }
  }

  lemma PendingIsClosed(n: nat, s: Sys, j: nat)
    requires SysInv(n, s) && j < |s.db.jobs| && s.db.jobs[j].status == Pending
    ensures j !in s.txns
  {
    hide Consistent;
  }

  lemma RealizeClaim(n: nat, s: Sys, j: nat) returns (moves: seq<Move>)
    requires Idle(n, s) && Enabled(s.db, Claim(j))
    ensures LegalMoves(true, s, moves) && WellPlaced(s.db)
    ensures Moved(true, s, moves).db == Do(s.db, Claim(j)) && Idle(n, Moved(true, s, moves))
  {
    assert WellPlaced(s.db) && |s.db.jobs| >= n;
    if j < n {
      IsSimulate(n, s, j);
      PendingIsClosed(n, s, j);
      hide SysInv;
      OneMove(n, s, Begin(j));
      moves := [Begin(j)];
    } else {
      moves := RealizeAnalysis(n, s, Claim(j));
    }
  }

  lemma RealizeAnalysis(n: nat, s: Sys, a: Act) returns (moves: seq<Move>)
    requires Idle(n, s) && Enabled(s.db, a) && a != Cancel && n <= a.j
    ensures LegalMoves(true, s, moves) && WellPlaced(s.db)
    ensures Moved(true, s, moves).db == Do(s.db, a) && Idle(n, Moved(true, s, moves))
  {
    assert WellPlaced(s.db) && !s.db.jobs[a.j].kind.Simulate?;
    MoveEffect(n, s, Chain(a));
    ChainEffect(n, s, a);
    hide SysInv, Do;
    OneMove(n, s, Chain(a));
    moves := [Chain(a)];
  }

  // Once its transaction is closed, the job of a participant is no longer in flight.
  lemma StaysIdle(n: nat, s: Sys, t: Sys, a: Act)
    requires Idle(n, s) && SysInv(n, t) && (a.Succeed? || a.FailAttempt?) && a.j < n && Enabled(s.db, a) && WellPlaced(s.db)
    requires t.lock == None && t.txns == s.txns - {a.j} && t.db == Do(s.db, a)
    ensures Idle(n, t)
  {
    assert |t.db.jobs| >= n;
    forall j | 0 <= j < n && t.db.jobs[j].status == InFlight
      ensures j in t.txns
    {
      JobsElsewhere(n, s.db, a, j);
    }
    hide SysInv, Do;
  }

  lemma JobsElsewhere(n: nat, db: Db, a: Act, j: nat)
    requires Consistent(n, db) && (a.Succeed? || a.FailAttempt?) && a.j < n && Enabled(db, a) && WellPlaced(db) && j < n
    ensures j < |Do(db, a).jobs|
    ensures if j == a.j then Do(db, a).jobs[j].status != InFlight else Do(db, a).jobs[j] == db.jobs[j]
  {
    hide Complete, FinalStatus;
  }

  // Every uncancelled history of atomic commits leaves rows that some interleaving
  // of the workers leaves: with serializability, the two reach the same rows.
  lemma {:induction false} EveryHistoryHappens(n: nat, s: Sys, acts: seq<Act>) returns (moves: seq<Move>)
    requires Idle(n, s) && Legal(s.db, acts) && NeverCancelled(acts)
    ensures LegalMoves(true, s, moves) && Moved(true, s, moves).db == After(s.db, acts)
    decreases |acts|
  {
    if acts == [] {
      moves := [];
    } else {
      hide Idle, Do, Enabled, WellPlaced;
      var first := Realize(n, s, acts[0]);
      var t := Moved(true, s, first);
      var rest := EveryHistoryHappens(n, t, acts[1..]);
      ThenMoves(s, first, rest);
      moves := first + rest;
    }
  }

  lemma StartIsIdle(n: nat)
    requires n >= 1
    ensures Idle(n, Start(n))
  {
    StartInv(n);
  }

  // In a created run, rows are left by some interleaving of the workers exactly
  // when they are left by some uncancelled history of atomic commits.
  lemma SameRows(n: nat, db: Db)
    requires n >= 1
    ensures (exists moves :: LegalMoves(true, Start(n), moves) && Moved(true, Start(n), moves).db == db) <==>
            (exists acts :: Legal(Created(n), acts) && NeverCancelled(acts) && After(Created(n), acts) == db)
  {
    StartIsIdle(n);
    StartInv(n);
    assert Start(n).db == Created(n);
    hide Idle, SysInv, Start, Created, NeverCancelled;
    if moves :| LegalMoves(true, Start(n), moves) && Moved(true, Start(n), moves).db == db {
      var acts := Serializable(n, Start(n), moves);
    }
    if acts :| Legal(Created(n), acts) && NeverCancelled(acts) && After(Created(n), acts) == db {
      var moves := EveryHistoryHappens(n, Start(n), acts);
    }
  }
}
