/** What becomes of a run whose call neither settled nor released it, because it was cancelled or its
    cost was infinite (orchestrator/tier5_execution.py:135-211, orchestrator/tier5_budget.py:373-396). */
module Tier5Aftermath {
  import opened Prelude
  import opened Text
  import opened Tier5Budget
  import opened Tier5BudgetRuns
  import opened Tier5Execution

  // ---- later traffic ----

  /** A later transaction of some client, or a later call of the service with any ending. */
  datatype Visit =
    | Direct(op: Op)
    | Attempt(r: Request, start: real, turns: seq<Turn>, ending: Ending, end: real)

  function AfterVisit(limit: int, digest: string -> string, db: Db, v: Visit): Db {
    match v
    case Direct(op) => Step(limit, digest, db, op)
    case Attempt(r, start, turns, ending, end) => Execute(limit, digest, db, r, start, turns, ending, end).0
  }

  function AfterVisits(limit: int, digest: string -> string, db: Db, visits: seq<Visit>): Db
    decreases |visits|
  {
    if visits == [] then db else AfterVisits(limit, digest, AfterVisit(limit, digest, db, visits[0]), visits[1..])
  }

  /** The visit is a call for this run's key, whatever it asks for and however it ends, or it is about
      other runs. Only sweeps, and transactions issued directly in this run's name, are left aside. */
  ghost predicate NoSweep(v: Visit, digest: string -> string, row: Row) {
    match v
    case Direct(op) => LeavesAlone(op, row.runId)
    case Attempt(r, _, turns, _, _) =>
      digest(r.key) == row.keyDigest || (r.runId != row.runId && Undisturbed(turns, row.runId))
  }

  lemma ForeignAttempt(limit: int, digest: string -> string, db: Db, i: nat, v: Visit)
    requires Inv(limit, db) && i < |db.runs| && v.Attempt? && v.r.runId != db.runs[i].runId
    requires Undisturbed(v.turns, db.runs[i].runId)
    ensures Inv(limit, AfterVisit(limit, digest, db, v)) && SameRun(db, AfterVisit(limit, digest, db, v), i)
  {
    hide Inv;
    hide Reserve;
    hide Finish;
    hide HasMarker;
    var (db1, res) := Reserve(limit, digest, db, v.r, v.start);
    ReserveKeepsInv(limit, digest, db, v.r, v.start);
    LeftAlone(limit, digest, db, OpReserve(v.r, v.start), i);
    assert Step(limit, digest, db, OpReserve(v.r, v.start)) == db1;
    if res.Ok? && res.value.state == Reserved {
      ForeignRunWhileBusy(limit, digest, db1, i, v.r.runId, v.turns);
      var busy := Busy(limit, digest, db1, v.r.runId, v.turns);
      FinishElsewhere(busy, i, v.r.runId, res.value.held, v.ending, v.end);
      FinishKeepsInv(limit, busy, v.r.runId, res.value.held, v.ending, v.end);
    }
  }

  lemma MarkedVisit(limit: int, digest: string -> string, db: Db, i: nat, v: Visit)
    requires Inv(limit, db) && i < |db.runs| && HasMarker(db.markers, db.runs[i].runId) && NoSweep(v, digest, db.runs[i])
    ensures Inv(limit, AfterVisit(limit, digest, db, v)) && SameRun(db, AfterVisit(limit, digest, db, v), i)
  {
    hide Inv;
    hide Step;
    hide Execute;
    hide HasMarker;
    match v
    case Direct(op) =>
      StepKeepsInv(limit, digest, db, op);
      LeftAlone(limit, digest, db, op, i);
    case Attempt(r, start, turns, ending, end) =>
      if digest(r.key) == db.runs[i].keyDigest {
        MarkedKeysNeverDispatchAgain(limit, digest, db, i, [], r, start, turns, ending, end);
        assert Run(limit, digest, db, []) == db;
      } else {
        ForeignAttempt(limit, digest, db, i, v);
      }
  }

  lemma {:induction false} MarkedRunStays(limit: int, digest: string -> string, db: Db, i: nat, visits: seq<Visit>)
    requires Inv(limit, db) && i < |db.runs| && HasMarker(db.markers, db.runs[i].runId)
    requires forall k :: 0 <= k < |visits| ==> NoSweep(visits[k], digest, db.runs[i])
    ensures Inv(limit, AfterVisits(limit, digest, db, visits)) && SameRun(db, AfterVisits(limit, digest, db, visits), i)
    decreases |visits|
  {
    hide Inv;
    hide AfterVisit;
    hide NoSweep;
    hide HasMarker;
    if visits != [] {
      MarkedVisit(limit, digest, db, i, visits[0]);
      assert forall k :: 0 <= k < |visits| - 1 ==> visits[1..][k] == visits[k + 1];
      MarkedRunStays(limit, digest, AfterVisit(limit, digest, db, visits[0]), i, visits[1..]);
    }
  }

  lemma SweepRow(limit: int, digest: string -> string, db: Db, i: nat, before: real, now: real)
    requires Inv(limit, db) && i < |db.runs|
    ensures KeyRow(db, db.runs[i].keyDigest) == Some(db.runs[i])
    ensures KeyRow(Step(limit, digest, db, OpRecover(before, now)), db.runs[i].keyDigest)
         == Some(RecoverRow(db.runs[i], db.markers, before, now))
  {
    hide Inv;
    hide RecoverRow;
    IndexOfKey(limit, db, i);
    RecoverKeepsInv(limit, db, before, now);
    var swept := RecoverExpired(db, before, now);
    assert swept.runs[i] == RecoverRow(db.runs[i], db.markers, before, now);
    assert RowEvolves(db.runs[i], swept.runs[i]);
    IndexOfKey(limit, swept, i);
  }

  /** Something was committed: the run stays DISPATCHED with its whole hold through any later traffic,
      calls for its own key with any endings included, and none of those calls reaches the runner. The
      first sweep that finds it stale charges it in full; an earlier one leaves it. */
  lemma CommittedRunsAwaitTheSweep(limit: int, digest: string -> string, db: Db, r: Request, start: real, turns: seq<Turn>,
                                   ending: Ending, end: real, visits: seq<Visit>, before: real, now: real)
    requires Inv(limit, db) && Dispatches(limit, digest, db, r, start) && Unhandled(ending)
    requires Reserve(limit, digest, db, r, start).1.value.runId == r.runId && Undisturbed(turns, r.runId) && Commits(turns)
    requires forall k :: 0 <= k < |visits| ==> NoSweep(visits[k], digest, Reserve(limit, digest, db, r, start).1.value)
    ensures
      var reservation := Reserve(limit, digest, db, r, start).1.value;
      var later := AfterVisits(limit, digest, Execute(limit, digest, db, r, start, turns, ending, end).0, visits);
      var row := KeyRow(later, digest(r.key));
      var swept := KeyRow(Step(limit, digest, later, OpRecover(before, now)), digest(r.key));
      && row.Some? && row.value.state == Dispatched && row.value.held == reservation.held > 0 && row.value.settled == 0
      && swept.Some? && swept.value.runId == r.runId
      && (row.value.updatedAt < before ==>
            swept.value.state == ConsumedUnknown && swept.value.held == 0 && swept.value.settled == reservation.held)
      && (row.value.updatedAt >= before ==> swept == row)
      && (forall again: Request, t :: digest(again.key) == digest(r.key) ==> !Dispatches(limit, digest, later, again, t))
  {
    hide Inv;
    hide Reserve;
    hide Execute;
    hide AfterVisits;
    hide HasMarker;
    hide Step;
    hide NoSweep;
    var reservation := Reserve(limit, digest, db, r, start).1.value;
    var i := UnhandledCallLeavesRow(limit, digest, db, r, start, turns, ending, end);
    ReservationKey(limit, digest, db, r, start);
    var after := Execute(limit, digest, db, r, start, turns, ending, end).0;
    forall k | 0 <= k < |visits|
      ensures NoSweep(visits[k], digest, after.runs[i])
    {
      SameNames(visits[k], digest, reservation, after.runs[i]);
    }
    MarkedRunStays(limit, digest, after, i, visits);
    var later := AfterVisits(limit, digest, after, visits);
    SweepRow(limit, digest, later, i, before, now);
    forall again: Request, t | digest(again.key) == digest(r.key)
      ensures !Dispatches(limit, digest, later, again, t)
    {
      MarkedKeysNeverDispatchAgain(limit, digest, later, i, [], again, t, [], Raised, t);
      assert Run(limit, digest, later, []) == later;
    }
  }

  lemma SameNames(v: Visit, digest: string -> string, a: Row, b: Row)
    requires NoSweep(v, digest, a) && a.runId == b.runId && a.keyDigest == b.keyDigest
    ensures NoSweep(v, digest, b)
  {
  }

  lemma ReservationKey(limit: int, digest: string -> string, db: Db, r: Request, start: real)
    requires Inv(limit, db) && Dispatches(limit, digest, db, r, start)
    ensures Reserve(limit, digest, db, r, start).1.value.keyDigest == digest(r.key)
    ensures Reserve(limit, digest, db, r, start).1.value.fingerprint == r.fingerprint
  {
  }

  // ---- a run with nothing committed ----

  ghost predicate AllLeaveAlone(ops: seq<Op>, runId: string) {
    forall k :: 0 <= k < |ops| ==> LeavesAlone(ops[k], runId)
  }

  lemma {:induction false} LeftAloneThroughout(limit: int, digest: string -> string, db: Db, ops: seq<Op>, i: nat)
    requires Inv(limit, db) && i < |db.runs| && AllLeaveAlone(ops, db.runs[i].runId)
    ensures Inv(limit, Run(limit, digest, db, ops)) && SameRun(db, Run(limit, digest, db, ops), i)
    decreases |ops|
  {
    hide Inv;
    hide Step;
    hide HasMarker;
    if ops != [] {
      StepKeepsInv(limit, digest, db, ops[0]);
      LeftAlone(limit, digest, db, ops[0], i);
      LeftAloneThroughout(limit, digest, Step(limit, digest, db, ops[0]), ops[1..], i);
    }
  }

  /** Nothing was committed, and nobody has touched the run since: it is RESERVED with its whole hold, and
      the first sweep that finds it stale releases it in full. */
  lemma UncommittedRunsAreReleasedByTheSweep(limit: int, digest: string -> string, db: Db, r: Request, start: real,
                                             turns: seq<Turn>, ending: Ending, end: real, ops: seq<Op>, before: real, now: real)
    requires Inv(limit, db) && Dispatches(limit, digest, db, r, start) && Unhandled(ending)
    requires Reserve(limit, digest, db, r, start).1.value.runId == r.runId && Undisturbed(turns, r.runId) && !Commits(turns)
    requires AllLeaveAlone(ops, r.runId)
    ensures
      var reservation := Reserve(limit, digest, db, r, start).1.value;
      var later := Run(limit, digest, Execute(limit, digest, db, r, start, turns, ending, end).0, ops);
      var row := KeyRow(later, digest(r.key));
      var swept := KeyRow(Step(limit, digest, later, OpRecover(before, now)), digest(r.key));
      && row.Some? && row.value.state == Reserved && row.value.held == reservation.held > 0
      && swept.Some? && swept.value.runId == r.runId
      && (row.value.updatedAt < before ==>
            swept.value.state == Released && swept.value.held == 0 && swept.value.settled == 0)
      && (row.value.updatedAt >= before ==> swept == row)
  {
    hide Inv;
    hide Reserve;
    hide Execute;
    hide Run;
    hide Step;
    hide HasMarker;
    var i := UnhandledCallLeavesRow(limit, digest, db, r, start, turns, ending, end);
    ReservationKey(limit, digest, db, r, start);
    var after := Execute(limit, digest, db, r, start, turns, ending, end).0;
    LeftAloneThroughout(limit, digest, after, ops, i);
    SweepRow(limit, digest, Run(limit, digest, after, ops), i, before, now);
  }

  lemma ReplaysOpenRow(limit: int, digest: string -> string, db: Db, i: nat, again: Request, now: real)
    requires i < |db.runs| && FindKey(db.runs, digest(again.key)) == Some(i) && !BadRequest(again)
    requires db.runs[i].state == Reserved && db.runs[i].fingerprint == again.fingerprint
    ensures Reserve(limit, digest, db, again, now) == (db, Ok(db.runs[i])) && Dispatches(limit, digest, db, again, now)
  {
  }

  /** Nothing was committed: no sweep is needed. A later call under the same key, fingerprint and run id
      reaches the runner again on the same hold, and the hold then ends as promised for that later call
      if and only if it is not cancelled in turn and its cost is not infinite. */
  lemma UncommittedRunsCanBeRetried(limit: int, digest: string -> string, db: Db, r: Request, start: real, turns: seq<Turn>,
                                    ending: Ending, end: real, ops: seq<Op>,
                                    again: Request, start': real, turns': seq<Turn>, ending': Ending, end': real)
    requires Inv(limit, db) && Dispatches(limit, digest, db, r, start) && Unhandled(ending)
    requires Reserve(limit, digest, db, r, start).1.value.runId == r.runId && Undisturbed(turns, r.runId) && !Commits(turns)
    requires AllLeaveAlone(ops, r.runId) && Undisturbed(turns', r.runId) && !BadRequest(again)
    requires digest(again.key) == digest(r.key) && again.fingerprint == r.fingerprint && again.runId == r.runId
    ensures
      var held := Reserve(limit, digest, db, r, start).1.value.held;
      var later := Run(limit, digest, Execute(limit, digest, db, r, start, turns, ending, end).0, ops);
      var row := KeyRow(Execute(limit, digest, later, again, start', turns', ending', end').0, digest(r.key));
      && Dispatches(limit, digest, later, again, start')
      && Reserve(limit, digest, later, again, start').1.value.held == held
      && row.Some? && row.value.runId == r.runId
      && ((row.value.held == 0 && (row.value.state, row.value.settled) == Promised(held, Commits(turns'), ending'))
          <==> !Unhandled(ending'))
  {
    hide Inv;
    hide Reserve;
    hide Execute;
    hide Run;
    hide HasMarker;
    hide Promised;
    hide Dispatches;
    hide BadRequest;
    var i := UnhandledCallLeavesRow(limit, digest, db, r, start, turns, ending, end);
    ReservationKey(limit, digest, db, r, start);
    var after := Execute(limit, digest, db, r, start, turns, ending, end).0;
    LeftAloneThroughout(limit, digest, after, ops, i);
    var later := Run(limit, digest, after, ops);
    IndexOfKey(limit, later, i);
    ReplaysOpenRow(limit, digest, later, i, again, start');
    SettledAsPromisedExactly(limit, digest, later, again, start', turns', ending', end');
  }

  /** The witness: the cancelled call of CancellationLeavesTheHold, retried, fails before any commit and
      releases the hold without a sweep. */
  lemma RetryEndsACancelledRun()
    ensures
      var cancelled := Execute(9, Identity(), OneReserved(), RequestAs("first"), 1.0, [], Cancelled, 2.0).0;
      && cancelled.runs[0].held == 9 && Dispatches(9, Identity(), cancelled, RequestAs("first"), 3.0)
      && Execute(9, Identity(), cancelled, RequestAs("first"), 3.0, [], Raised, 4.0)
           == (Db([Row("first", "key", "print", "day", Released, 9, 0, 0, 4.0)], {}), Failed)
  {
    CancellationLeavesTheHold();
    assert !IsSpace("first"[0]);
    ReplaysReserved("first", 3.0);
    var db := OneReserved();
    assert FindRun(db.runs, "first") == Some(0);
    assert db.runs[0 := ReleaseRow(db.runs[0], 4.0)] == [ReleaseRow(db.runs[0], 4.0)];
    assert ReleasePreDispatch(db, "first", 4.0).0 == Db([ReleaseRow(db.runs[0], 4.0)], {});
  }
}
