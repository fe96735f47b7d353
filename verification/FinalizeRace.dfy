/** Without the lock on the run row: two workers that finish the last two
    participants side by side lose the finalization. */
module FinalizeRace {
  import opened Domain
  import opened RunQueue
  import opened FinalizeProtocol

  // At no moment are more than two transactions open.
  ghost predicate TwoAtATime(s: Sys, moves: seq<Move>)
    requires LegalMoves(false, s, moves)
    decreases |moves|
  {
    |s.txns| <= 2 && (moves == [] || TwoAtATime(Apply(s, moves[0]), moves[1..]))
  }

  // From s the moves lead to t, two workers at most being busy.
  ghost predicate Drives(s: Sys, moves: seq<Move>, t: Sys) {
    LegalMoves(false, s, moves) && Moved(false, s, moves) == t && TwoAtATime(s, moves)
  }

  lemma Then(s: Sys, m: Move, next: Sys, moves: seq<Move>, t: Sys)
    requires CanMove(false, s, m) && Apply(s, m) == next && |s.txns| <= 2 && Drives(next, moves, t)
    ensures Drives(s, [m] + moves, t)
  {
    assert ([m] + moves)[1..] == moves;
    hide CanMove, Apply;
  }

  // The first `done` participants have completed, the next `busy` are worked on.
  function Stage(n: nat, done: nat, busy: nat, lock: Option<nat>, txns: map<nat, Txn>): Sys {
    Sys(Db(Running,
           seq(n, i requires i >= 0 => if i < done then Ended(EndCompleted, false) else Waiting),
           seq(n, i requires i >= 0 =>
             Job(RunQueue.Simulate(i), if i < done then Done else if i < done + busy then InFlight else Pending, 0))),
        lock, txns)
  }

  const BEGUN := Txn(Started, Waiting, false, None)

  function TxnAt(phase: Phase): Txn {
    Txn(phase, Ended(EndCompleted, false), false, None)
  }

  lemma BeginStage(n: nat, done: nat, busy: nat, txns: map<nat, Txn>, moves: seq<Move>, t: Sys)
    requires done + busy < n && done + busy !in txns && |txns| <= 2
    requires Drives(Stage(n, done, busy + 1, None, txns[done + busy := BEGUN]), moves, t)
    ensures Drives(Stage(n, done, busy, None, txns), [Begin(done + busy)] + moves, t)
  {
    hide Drives;
    var j, s := done + busy, Stage(n, done, busy, None, txns);
    assert Apply(s, Begin(j)).db.jobs == Stage(n, done, busy + 1, None, txns).db.jobs;
    Then(s, Begin(j), Stage(n, done, busy + 1, None, txns[j := BEGUN]), moves, t);
  }

  lemma WriteStage(n: nat, done: nat, busy: nat, j: nat, txns: map<nat, Txn>, moves: seq<Move>, t: Sys)
    requires done <= j < done + busy <= n && j in txns && txns[j] == BEGUN && |txns| <= 2
    requires Drives(Stage(n, done, busy, None, txns[j := TxnAt(Wrote)]), moves, t)
    ensures Drives(Stage(n, done, busy, None, txns), [WriteEnd(j, EndCompleted)] + moves, t)
  {
    hide Drives;
    Then(Stage(n, done, busy, None, txns), WriteEnd(j, EndCompleted), Stage(n, done, busy, None, txns[j := TxnAt(Wrote)]), moves, t);
  }

  lemma LockStage(n: nat, done: nat, busy: nat, lock: Option<nat>, j: nat, txns: map<nat, Txn>, moves: seq<Move>, t: Sys)
    requires done <= j < done + busy <= n && j in txns && txns[j] == TxnAt(Wrote) && |txns| <= 2
    requires Drives(Stage(n, done, busy, Some(j), txns[j := TxnAt(Locked)]), moves, t)
    ensures Drives(Stage(n, done, busy, lock, txns), [TakeLock(j)] + moves, t)
  {
    hide Drives;
    Then(Stage(n, done, busy, lock, txns), TakeLock(j), Stage(n, done, busy, Some(j), txns[j := TxnAt(Locked)]), moves, t);
  }

  // While another participant waits, the recount sees an unfinished run.
  lemma DecideStage(n: nat, done: nat, busy: nat, lock: Option<nat>, j: nat, other: nat, txns: map<nat, Txn>, moves: seq<Move>, t: Sys)
    requires done <= j < done + busy <= n && j in txns && txns[j] == TxnAt(Locked) && |txns| <= 2
    requires done <= other < n && other != j
    requires Drives(Stage(n, done, busy, lock, txns[j := TxnAt(Decided)]), moves, t)
    ensures Drives(Stage(n, done, busy, lock, txns), [Decide(j)] + moves, t)
  {
    hide Drives;
    var s := Stage(n, done, busy, lock, txns);
    assert s.db.parts[j := Ended(EndCompleted, false)][other] == Waiting;
    Then(s, Decide(j), Stage(n, done, busy, lock, txns[j := TxnAt(Decided)]), moves, t);
  }

  lemma CommitStage(n: nat, done: nat, busy: nat, lock: Option<nat>, txns: map<nat, Txn>, moves: seq<Move>, t: Sys)
    requires 0 < busy && done + busy <= n && done in txns && txns[done] == TxnAt(Decided) && |txns| <= 2
    requires Drives(Stage(n, done + 1, busy - 1, if lock == Some(done) then None else lock, txns - {done}), moves, t)
    ensures Drives(Stage(n, done, busy, lock, txns), [Commit(done)] + moves, t)
  {
    hide Drives;
    var s := Stage(n, done, busy, lock, txns);
    var next := Stage(n, done + 1, busy - 1, if lock == Some(done) then None else lock, txns - {done});
    assert Apply(s, Commit(done)).db.jobs == next.db.jobs;
    assert Apply(s, Commit(done)).db.parts == next.db.parts;
    Then(s, Commit(done), next, moves, t);
  }

  function One(k: nat, a: Txn): (m: map<nat, Txn>)
    ensures |m| == 1
  {
    assert map[k := a].Keys == {k};
    map[k := a]
  }

  function Two(k: nat, a: Txn, b: Txn): (m: map<nat, Txn>)
    ensures |m| == 2
  {
    assert map[k := a, k + 1 := b].Keys == {k, k + 1};
    map[k := a, k + 1 := b]
  }

  lemma OneLaws(k: nat, a: Txn, b: Txn)
    ensures k in One(k, a) && One(k, a)[k] == a && One(k, a)[k := b] == One(k, b) && One(k, a) - {k} == map[]
    ensures map[][k := a] == One(k, a) && One(k, a)[k + 1 := b] == Two(k, a, b) && k + 1 !in One(k, a)
  {}

  lemma TwoLaws(k: nat, a: Txn, b: Txn, c: Txn)
    ensures var m := Two(k, a, b);
            && k in m && k + 1 in m && m[k] == a && m[k + 1] == b
            && m[k := c] == Two(k, c, b) && m[k + 1 := c] == Two(k, a, c) && m - {k} == One(k + 1, b)
  {}

  // One participant finishes with nobody else at work.
  lemma AloneNext(n: nat, k: nat, rest: seq<Move>, t: Sys) returns (moves: seq<Move>)
    requires k + 1 < n && Drives(Stage(n, k + 1, 0, None, map[]), rest, t)
    ensures Drives(Stage(n, k, 0, None, map[]), moves, t)
  {
    hide Stage, Drives, One, Two, TxnAt;
    OneLaws(k, TxnAt(Decided), BEGUN);
    moves := [Commit(k)] + rest;
    CommitStage(n, k, 1, Some(k), One(k, TxnAt(Decided)), rest, t);
    OneLaws(k, TxnAt(Locked), TxnAt(Decided));
    DecideStage(n, k, 1, Some(k), k, k + 1, One(k, TxnAt(Locked)), moves, t);
    moves := [Decide(k)] + moves;
    OneLaws(k, TxnAt(Wrote), TxnAt(Locked));
    LockStage(n, k, 1, None, k, One(k, TxnAt(Wrote)), moves, t);
    moves := [TakeLock(k)] + moves;
    OneLaws(k, BEGUN, TxnAt(Wrote));
    WriteStage(n, k, 1, k, One(k, BEGUN), moves, t);
    moves := [WriteEnd(k, EndCompleted)] + moves;
    BeginStage(n, k, 0, map[], moves, t);
    moves := [Begin(k)] + moves;
  }

  // Both of the last two have written: each recounts before the other commits.
  lemma BothRecount(n: nat, k: nat) returns (moves: seq<Move>)
    requires k + 2 == n
    ensures Drives(Stage(n, k, 2, None, Two(k, TxnAt(Wrote), TxnAt(Wrote))), moves, Stage(n, n, 0, None, map[]))
  {
    var t := Stage(n, n, 0, None, map[]);
    assert Drives(t, [], t);
    hide Stage, Drives, One, Two, TxnAt;
    var w, l, d := TxnAt(Wrote), TxnAt(Locked), TxnAt(Decided);
    moves := [];
    OneLaws(k + 1, d, d);
    CommitStage(n, k + 1, 1, Some(k + 1), One(k + 1, d), moves, t);
    moves := [Commit(k + 1)] + moves;
    TwoLaws(k, d, d, d);
    CommitStage(n, k, 2, Some(k + 1), Two(k, d, d), moves, t);
    moves := [Commit(k)] + moves;
    TwoLaws(k, d, l, d);
    DecideStage(n, k, 2, Some(k + 1), k + 1, k, Two(k, d, l), moves, t);
    moves := [Decide(k + 1)] + moves;
    TwoLaws(k, d, w, l);
    LockStage(n, k, 2, Some(k), k + 1, Two(k, d, w), moves, t);
    moves := [TakeLock(k + 1)] + moves;
    TwoLaws(k, l, w, d);
    DecideStage(n, k, 2, Some(k), k, k + 1, Two(k, l, w), moves, t);
    moves := [Decide(k)] + moves;
    TwoLaws(k, w, w, l);
    LockStage(n, k, 2, None, k, Two(k, w, w), moves, t);
    moves := [TakeLock(k)] + moves;
  }

  lemma BothWrite(n: nat, k: nat) returns (moves: seq<Move>)
    requires k + 2 == n
    ensures Drives(Stage(n, k, 2, None, Two(k, BEGUN, BEGUN)), moves, Stage(n, n, 0, None, map[]))
  {
    var t := Stage(n, n, 0, None, map[]);
    hide Stage, Drives, One, Two, TxnAt;
    moves := BothRecount(n, k);
    TwoLaws(k, TxnAt(Wrote), BEGUN, TxnAt(Wrote));
    WriteStage(n, k, 2, k + 1, Two(k, TxnAt(Wrote), BEGUN), moves, t);
    moves := [WriteEnd(k + 1, EndCompleted)] + moves;
    TwoLaws(k, BEGUN, BEGUN, TxnAt(Wrote));
    WriteStage(n, k, 2, k, Two(k, BEGUN, BEGUN), moves, t);
    moves := [WriteEnd(k, EndCompleted)] + moves;
  }

  lemma LastTwoOverlap(n: nat, k: nat) returns (moves: seq<Move>)
    requires k + 2 == n
    ensures Drives(Stage(n, k, 0, None, map[]), moves, Stage(n, n, 0, None, map[]))
  {
    var t := Stage(n, n, 0, None, map[]);
    hide Stage, Drives, One, Two, TxnAt;
    moves := BothWrite(n, k);
    OneLaws(k, BEGUN, BEGUN);
    BeginStage(n, k, 1, One(k, BEGUN), moves, t);
    moves := [Begin(k + 1)] + moves;
    BeginStage(n, k, 0, map[], moves, t);
    moves := [Begin(k)] + moves;
  }

  lemma {:induction false} AllButTwoAlone(n: nat, k: nat) returns (moves: seq<Move>)
    requires k + 2 <= n
    ensures Drives(Stage(n, k, 0, None, map[]), moves, Stage(n, n, 0, None, map[]))
    decreases n - k
  {
    hide Stage, Drives;
    if k + 2 == n {
      moves := LastTwoOverlap(n, k);
    } else {
      var rest := AllButTwoAlone(n, k + 1);
      moves := AloneNext(n, k, rest, Stage(n, n, 0, None, map[]));
    }
  }

  // Without the lock, for every run of two or more participants some
  // interleaving in which never more than two workers are busy ends all of them,
  // leaves the run RUNNING with no aggregation, and allows no further move.
  lemma LostFinalizationWithoutLock(n: nat) returns (moves: seq<Move>)
    requires n >= 2
    ensures LegalMoves(false, Start(n), moves) && TwoAtATime(Start(n), moves)
    ensures var s := Moved(false, Start(n), moves);
            && Complete(s.db.parts) && s.db.run == Running
            && (forall j :: 0 <= j < |s.db.jobs| ==> s.db.jobs[j].kind != Aggregate)
            && (forall m :: !CanMove(false, s, m))
  {
    assert Stage(n, 0, 0, None, map[]) == Start(n) by {
      assert Stage(n, 0, 0, None, map[]).db.jobs == Created(n).jobs;
      assert Stage(n, 0, 0, None, map[]).db.parts == Created(n).parts;
    }
    moves := AllButTwoAlone(n, 0);
    hide LegalMoves, Moved, TwoAtATime;
    assert forall j :: 0 <= j < n ==> Stage(n, n, 0, None, map[]).db.jobs[j].status == Done;
  }
}
