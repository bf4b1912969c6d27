/** The execution service around the ledger (orchestrator/tier5_execution.py:132-211). The pipeline
    runner is an oracle: while it runs it commits stage markers and other clients' transactions may
    interleave, and it ends with a result or an exception. */
module Tier5Execution {
  import opened Prelude
  import opened Text
  import opened Tier5Budget
  import opened Tier5BudgetRuns
  import Tier5BudgetLedger

  /** One ledger transaction while the runner is busy. */
  datatype Turn = Commit(stage: string, now: real) | Other(op: Op)

  /** The total cost of a run in USD. It is unknown when some stage did not report one, or when the sum
      is not a number or negative infinity, which fail the same test. It is infinite when its float value
      in micro-USD is. */
  datatype Cost = Unknown | Known(usd: real) | Infinite

  /** The runner returns, or raises, or the call is cancelled while it waits for the runner. A
      cancellation is no ordinary exception: the handler that settles failed runs does not see it. */
  datatype Ending = Finished(cost: Cost) | Raised | Cancelled

  /** The endings after which the service neither settles nor releases: a cancellation, and an infinite
      cost, whose conversion to an integer raises outside the handler. */
  predicate Unhandled(ending: Ending) {
    ending.Cancelled? || ending == Finished(Infinite)
  }

  datatype Answer =
    | Refused(error: BudgetError)
    | Replayed(reservation: Row)
    | Completed(reservation: Row)
    | SettleFailed(error: BudgetError)
    | Failed
    | Interrupted
    | ConversionFailed

  /** Round to the nearest integer, ties to even. */
  function RoundHalfEven(x: real): (n: int)
    ensures -0.5 <= x - n as real <= 0.5
    ensures x - n as real == 0.5 || x - n as real == -0.5 ==> n % 2 == 0
  {
    var f := x.Floor;
    var rest := x - f as real;
    if rest < 0.5 || (rest == 0.5 && f % 2 == 0) then f else f + 1
  }

  function ToMicroUsd(usd: real): int {
    RoundHalfEven(usd * MICROUSD_PER_USD as real)
  }

  /** The part of the hold that the reported cost proves unused. */
  function VerifiedUnused(held: int, cost: Cost): int {
    if cost.Known? && cost.usd >= 0.0 then Max(0, held - ToMicroUsd(cost.usd)) else 0
  }

  /** The ledger while the runner is busy. Markers are committed under the caller's run id. */
  function Busy(limit: int, digest: string -> string, db: Db, runId: string, turns: seq<Turn>): Db
    decreases |turns|
  {
    if turns == [] then db
    else
      var next := match turns[0]
        case Commit(stage, now) => MarkDispatch(db, runId, stage, now).0
        case Other(op) => Step(limit, digest, db, op);
      Busy(limit, digest, next, runId, turns[1..])
  }

  /** Settlement after the runner, again under the caller's run id. */
  function Finish(db: Db, runId: string, held: int, ending: Ending, now: real): (Db, Answer) {
    match ending
    case Raised =>
      (if HasMarker(db.markers, runId) then Settle(db, runId, Some(0), now).0
       else ReleasePreDispatch(db, runId, now).0, Failed)
    case Cancelled => (db, Interrupted)
    case Finished(Infinite) => (db, ConversionFailed)
    case Finished(cost) =>
      var (after, res) := Settle(db, runId, Some(VerifiedUnused(held, cost)), now);
      (after, if res.Ok? then Completed(res.value) else SettleFailed(res.error))
  }

  /** Whether the call gets as far as the runner. */
  predicate Dispatches(limit: int, digest: string -> string, db: Db, r: Request, now: real) {
    var res := Reserve(limit, digest, db, r, now).1;
    res.Ok? && res.value.state == Reserved
  }

  function Execute(limit: int, digest: string -> string, db: Db, r: Request, start: real, turns: seq<Turn>,
                   ending: Ending, end: real): (Db, Answer)
  {
    var (db1, res) := Reserve(limit, digest, db, r, start);
    if res.Err? then (db1, Refused(res.error))
    else if res.value.state != Reserved then (db1, Replayed(res.value))
    else Finish(Busy(limit, digest, db1, r.runId, turns), r.runId, res.value.held, ending, end)
  }

  // ---- a run of one's own ----

  /** A transaction of another client that leaves this run alone: no sweep, and no marking, settling
      or releasing of this run. Reservations under any key are fine. */
  predicate LeavesAlone(op: Op, runId: string) {
    match op
    case OpReserve(_, _) => true
    case OpMark(id, _, _) => id != runId
    case OpSettle(id, _, _) => id != runId
    case OpRelease(id, _) => id != runId
    case OpRecover(_, _) => false
  }

  ghost predicate Undisturbed(turns: seq<Turn>, runId: string) {
    forall k :: 0 <= k < |turns| ==> turns[k].Other? ==> LeavesAlone(turns[k].op, runId)
  }

  ghost predicate Commits(turns: seq<Turn>) {
    exists k :: 0 <= k < |turns| && turns[k].Commit?
  }

  /** Row i, its markers included, is the same in both. */
  ghost predicate SameRun(a: Db, b: Db, i: nat) {
    && i < |a.runs| && i < |b.runs| && b.runs[i] == a.runs[i]
    && (HasMarker(b.markers, a.runs[i].runId) <==> HasMarker(a.markers, a.runs[i].runId))
  }

  lemma OtherRunsMarked(db: Db, runId: string, stage: string, now: real, i: nat)
    requires i < |db.runs| && db.runs[i].runId != runId
    ensures SameRun(db, MarkDispatch(db, runId, stage, now).0, i)
  {
    var after := MarkDispatch(db, runId, stage, now).0;
    if after.markers != db.markers {
      OtherMarkers(db.markers, after.markers, runId, db.runs[i].runId);
    }
  }

  lemma LeftAlone(limit: int, digest: string -> string, db: Db, op: Op, i: nat)
    requires i < |db.runs| && LeavesAlone(op, db.runs[i].runId)
    ensures SameRun(db, Step(limit, digest, db, op), i)
  {
    hide Used;
    hide HasMarker;
    if op.OpMark? {
      OtherRunsMarked(db, op.runId, op.stage, op.now, i);
    }
  }

  lemma RunIndex(runs: seq<Row>, i: nat)
    requires Unique(runs) && i < |runs|
    ensures FindRun(runs, runs[i].runId) == Some(i)
  {
  }

  lemma OwnCommit(limit: int, db: Db, i: nat, stage: string, now: real)
    requires Inv(limit, db) && i < |db.runs|
    ensures
      var after := MarkDispatch(db, db.runs[i].runId, stage, now).0;
      && |after.runs| == |db.runs| && after.runs[i] == MarkRow(db.runs[i], now)
      && HasMarker(after.markers, db.runs[i].runId)
  {
    RunIndex(db.runs, i);
    assert (db.runs[i].runId, stage) in MarkDispatch(db, db.runs[i].runId, stage, now).0.markers;
  }

  lemma TurnKeepsInv(limit: int, digest: string -> string, db: Db, runId: string, turn: Turn)
    requires Inv(limit, db)
    ensures Inv(limit, Busy(limit, digest, db, runId, [turn])) && Evolves(db, Busy(limit, digest, db, runId, [turn]))
  {
    hide Step;
    hide MarkDispatch;
    hide Inv;
    hide Evolves;
    assert [turn][1..] == [];
    match turn
    case Commit(stage, now) => MarkKeepsInv(limit, db, runId, stage, now);
    case Other(op) => StepKeepsInv(limit, digest, db, op);
  }

  lemma BusyUnfolds(limit: int, digest: string -> string, db: Db, runId: string, turns: seq<Turn>)
    requires turns != []
    ensures Busy(limit, digest, db, runId, turns)
         == Busy(limit, digest, Busy(limit, digest, db, runId, [turns[0]]), runId, turns[1..])
  {
    hide Step;
    hide MarkDispatch;
    var one := [turns[0]];
    assert one[1..] == [];
  }

  /** The row of an undisturbed open run: it keeps its hold, and it is dispatched and marked exactly
      when the runner committed. */
  ghost predicate OpenRow(db: Db, i: nat, row: Row, committed: bool) {
    && i < |db.runs| && db.runs[i].runId == row.runId && db.runs[i].held == row.held && db.runs[i].settled == 0
    && db.runs[i].state == (if committed then Dispatched else Reserved)
    && (HasMarker(db.markers, row.runId) <==> committed)
  }

  lemma OwnTurn(limit: int, digest: string -> string, db: Db, i: nat, row: Row, committed: bool, turn: Turn)
    requires Inv(limit, db) && OpenRow(db, i, row, committed)
    requires turn.Other? ==> LeavesAlone(turn.op, row.runId)
    ensures OpenRow(Busy(limit, digest, db, row.runId, [turn]), i, row, committed || turn.Commit?)
  {
    hide Used;
    hide HasMarker;
    assert [turn][1..] == [];
    match turn
    case Commit(stage, now) => OwnCommit(limit, db, i, stage, now);
    case Other(op) => LeftAlone(limit, digest, db, op, i);
  }

  lemma {:induction false} OwnRunWhileBusy(limit: int, digest: string -> string, db: Db, i: nat, row: Row,
                                           committed: bool, turns: seq<Turn>)
    requires Inv(limit, db) && OpenRow(db, i, row, committed) && Undisturbed(turns, row.runId)
    ensures
      var after := Busy(limit, digest, db, row.runId, turns);
      Inv(limit, after) && OpenRow(after, i, row, committed || Commits(turns))
    decreases |turns|
  {
    hide Inv;
    hide OpenRow;
    if turns != [] {
      BusyUnfolds(limit, digest, db, row.runId, turns);
      TurnKeepsInv(limit, digest, db, row.runId, turns[0]);
      OwnTurn(limit, digest, db, i, row, committed, turns[0]);
      var next := Busy(limit, digest, db, row.runId, [turns[0]]);
      OwnRunWhileBusy(limit, digest, next, i, row, committed || turns[0].Commit?, turns[1..]);
      assert turns == [turns[0]] + turns[1..];
      assert Commits(turns) <==> turns[0].Commit? || Commits(turns[1..]) by {
        assert forall k :: 1 <= k < |turns| ==> turns[k] == turns[1..][k - 1];
        assert forall k :: 0 <= k < |turns| - 1 ==> turns[1..][k] == turns[k + 1];
      }
    }
  }

  /** What the service promises to charge a run that held `held`: (final state, settled amount). A call
      that does not finish is promised the treatment of a failure. */
  function Promised(held: int, committed: bool, ending: Ending): (RunState, int) {
    match ending
    case Finished(cost) =>
      (Settled, if cost.Known? && cost.usd >= 0.0 then Min(ToMicroUsd(cost.usd), held) else held)
    case _ => if committed then (Settled, held) else (Released, 0)
  }

  lemma FinishCharges(limit: int, db: Db, i: nat, row: Row, committed: bool, ending: Ending, now: real)
    requires Inv(limit, db) && OpenRow(db, i, row, committed) && row.held > 0 && !Unhandled(ending)
    ensures
      var after := Finish(db, row.runId, row.held, ending, now).0;
      && i < |after.runs| && after.runs[i].held == 0
      && (after.runs[i].state, after.runs[i].settled) == Promised(row.held, committed, ending)
  {
    hide Used;
    hide HasMarker;
    RunIndex(db.runs, i);
  }

  /** The index of the row that a granted or replayed reservation answers with. */
  lemma ReservedRow(limit: int, digest: string -> string, db: Db, r: Request, now: real) returns (i: nat)
    requires Inv(limit, db) && Dispatches(limit, digest, db, r, now)
    ensures
      var (db1, res) := Reserve(limit, digest, db, r, now);
      && Inv(limit, db1) && FindKey(db1.runs, digest(r.key)) == Some(i) && db1.runs[i] == res.value
      && OpenRow(db1, i, res.value, false) && res.value.held > 0
  {
    ReserveKeepsInv(limit, digest, db, r, now);
    var (db1, res) := Reserve(limit, digest, db, r, now);
    i := if db1 == db then FindKey(db.runs, digest(r.key)).value else |db.runs|;
    assert db1.runs[i] == res.value;
    KeyIndex(db1.runs, i);
    assert RowOk(db1.runs[i], db1.markers);
  }

  /** The row that holds the caller's key, at the end of the call. */
  function KeyRow(db: Db, keyDigest: string): Option<Row> {
    var i := FindKey(db.runs, keyDigest);
    if i.Some? then Some(db.runs[i.value]) else None
  }

  lemma {:induction false} ForeignRunWhileBusy(limit: int, digest: string -> string, db: Db, i: nat, runId: string, turns: seq<Turn>)
    requires Inv(limit, db) && i < |db.runs| && db.runs[i].runId != runId && Undisturbed(turns, db.runs[i].runId)
    ensures
      var after := Busy(limit, digest, db, runId, turns);
      Inv(limit, after) && SameRun(db, after, i)
    decreases |turns|
  {
    hide Inv;
    hide HasMarker;
    if turns != [] {
      BusyUnfolds(limit, digest, db, runId, turns);
      TurnKeepsInv(limit, digest, db, runId, turns[0]);
      var next := Busy(limit, digest, db, runId, [turns[0]]);
      ForeignTurn(limit, digest, db, i, runId, turns[0]);
      ForeignRunWhileBusy(limit, digest, next, i, runId, turns[1..]);
    }
  }

  lemma ForeignTurn(limit: int, digest: string -> string, db: Db, i: nat, runId: string, turn: Turn)
    requires i < |db.runs| && db.runs[i].runId != runId && (turn.Other? ==> LeavesAlone(turn.op, db.runs[i].runId))
    ensures SameRun(db, Busy(limit, digest, db, runId, [turn]), i)
  {
    hide Used;
    hide HasMarker;
    assert [turn][1..] == [];
    match turn
    case Commit(stage, now) => OtherRunsMarked(db, runId, stage, now, i);
    case Other(op) => LeftAlone(limit, digest, db, op, i);
  }

  /** Finishing settles or releases only the run it names. */
  lemma FinishElsewhere(db: Db, i: nat, runId: string, held: int, ending: Ending, now: real)
    requires i < |db.runs| && db.runs[i].runId != runId
    ensures
      var after := Finish(db, runId, held, ending, now).0;
      SameRun(db, after, i)
  {
    hide HasMarker;
  }

  lemma FinishKeepsInv(limit: int, db: Db, runId: string, held: int, ending: Ending, now: real)
    requires Inv(limit, db)
    ensures Inv(limit, Finish(db, runId, held, ending, now).0) && Evolves(db, Finish(db, runId, held, ending, now).0)
  {
    hide Inv;
    hide Evolves;
    match ending
    case Raised =>
      SettleKeepsInv(limit, db, runId, Some(0), now);
      ReleaseKeepsInv(limit, db, runId, now);
    case Cancelled => StandingStill(limit, db);
    case Finished(cost) =>
      StandingStill(limit, db);
      SettleKeepsInv(limit, db, runId, Some(VerifiedUnused(held, cost)), now);
  }

  /** Settlement, exactly. Take a call that gets as far as the runner, with no sweep and no duplicate
      touching the run behind its key. The hold behind the key ends as promised (known cost: the
      lesser of cost and hold; unknown cost or failure after a commit: the whole hold; failure before
      any commit: nothing) if and only if that run was reserved under the caller's own run id, the call
      was not cancelled, and the reported cost was not infinite. */
  lemma SettledAsPromisedExactly(limit: int, digest: string -> string, db: Db, r: Request, start: real,
                                 turns: seq<Turn>, ending: Ending, end: real)
    requires Inv(limit, db) && Dispatches(limit, digest, db, r, start)
    requires Undisturbed(turns, Reserve(limit, digest, db, r, start).1.value.runId)
    ensures
      var reservation := Reserve(limit, digest, db, r, start).1.value;
      var row := KeyRow(Execute(limit, digest, db, r, start, turns, ending, end).0, digest(r.key));
      && row.Some? && row.value.runId == reservation.runId
      && ((row.value.held == 0 && (row.value.state, row.value.settled) == Promised(reservation.held, Commits(turns), ending))
          <==> reservation.runId == r.runId && !Unhandled(ending))
  {
    hide Inv;
    hide OpenRow;
    hide Reserve;
    hide Finish;
    hide Promised;
    var (db1, res) := Reserve(limit, digest, db, r, start);
    var i := ReservedRow(limit, digest, db, r, start);
    var busy := Busy(limit, digest, db1, r.runId, turns);
    var after := Finish(busy, r.runId, res.value.held, ending, end).0;
    if res.value.runId != r.runId {
      ForeignRunWhileBusy(limit, digest, db1, i, r.runId, turns);
      FinishElsewhere(busy, i, r.runId, res.value.held, ending, end);
      FinishKeepsInv(limit, busy, r.runId, res.value.held, ending, end);
      IndexOfKey(limit, after, i);
    } else if Unhandled(ending) {
      UnhandledCallKeepsTheHold(limit, digest, db, r, start, turns, ending, end);
    } else {
      OwnRunWhileBusy(limit, digest, db1, i, res.value, false, turns);
      FinishCharges(limit, busy, i, res.value, Commits(turns), ending, end);
      FinishKeepsInv(limit, busy, r.runId, res.value.held, ending, end);
      OpenIdentity(limit, db1, busy, after, i, digest, turns, r.runId);
    }
  }

  /** The amount, in numbers. A call that is settled as promised with a known cost of at least zero is
      charged its whole hold when the cost in micro-USD reaches it, and otherwise the whole number of
      micro-USD nearest to the cost, the even one of two. */
  lemma KnownCostIsCharged(limit: int, digest: string -> string, db: Db, r: Request, start: real, turns: seq<Turn>,
                           usd: real, end: real)
    requires Inv(limit, db) && Dispatches(limit, digest, db, r, start) && usd >= 0.0
    requires Reserve(limit, digest, db, r, start).1.value.runId == r.runId && Undisturbed(turns, r.runId)
    ensures
      var held := Reserve(limit, digest, db, r, start).1.value.held;
      var row := KeyRow(Execute(limit, digest, db, r, start, turns, Finished(Known(usd)), end).0, digest(r.key));
      && row.Some? && row.value.runId == r.runId && row.value.state == Settled && row.value.held == 0
      && (1_000_000.0 * usd >= held as real ==> row.value.settled == held)
      && (1_000_000.0 * usd < held as real ==>
            && -0.5 <= 1_000_000.0 * usd - row.value.settled as real <= 0.5
            && (1_000_000.0 * usd - row.value.settled as real == 0.5 || 1_000_000.0 * usd - row.value.settled as real == -0.5 ==>
                  row.value.settled % 2 == 0))
  {
    hide Inv;
    hide Reserve;
    hide Execute;
    hide RoundHalfEven;
    SettledAsPromisedExactly(limit, digest, db, r, start, turns, Finished(Known(usd)), end);
  }

  /** The other endings, in numbers: an unknown or negative cost, or a failure after a commit, is charged
      the whole hold; a failure before any commit nothing. */
  lemma OtherEndingsAreCharged(limit: int, digest: string -> string, db: Db, r: Request, start: real, turns: seq<Turn>,
                               ending: Ending, end: real)
    requires Inv(limit, db) && Dispatches(limit, digest, db, r, start) && !Unhandled(ending)
    requires ending.Finished? && ending.cost.Known? ==> ending.cost.usd < 0.0
    requires Reserve(limit, digest, db, r, start).1.value.runId == r.runId && Undisturbed(turns, r.runId)
    ensures
      var held := Reserve(limit, digest, db, r, start).1.value.held;
      var row := KeyRow(Execute(limit, digest, db, r, start, turns, ending, end).0, digest(r.key));
      && row.Some? && row.value.runId == r.runId && row.value.held == 0
      && if ending.Finished? || Commits(turns) then row.value.state == Settled && row.value.settled == held
         else row.value.state == Released && row.value.settled == 0
  {
    hide Inv;
    hide Reserve;
    hide Execute;
    SettledAsPromisedExactly(limit, digest, db, r, start, turns, ending, end);
  }

  lemma OneRowPerRun(limit: int, db: Db, i: nat, j: nat)
    requires Inv(limit, db) && i < |db.runs| && j < |db.runs| && db.runs[i].runId == db.runs[j].runId
    ensures i == j
  {
  }

  lemma SettledRow(db: Db, runId: string, unused: Option<int>, now: real)
    requires FindRun(db.runs, runId).Some?
    ensures
      var (after, res) := Settle(db, runId, unused, now);
      var i := FindRun(db.runs, runId).value;
      |after.runs| == |db.runs| && i < |after.runs| && after.runs[i].runId == runId && res == Ok(after.runs[i])
  {
  }

  /** What the caller is told: why it was refused, the run as it stands when its key is past its
      reservation, and else how its call ended, with the settled run when it was settled. */
  lemma AnswersTellWhatHappened(limit: int, digest: string -> string, db: Db, r: Request, start: real, turns: seq<Turn>,
                                ending: Ending, end: real)
    requires Inv(limit, db)
    ensures
      var res := Reserve(limit, digest, db, r, start).1;
      var (after, a) := Execute(limit, digest, db, r, start, turns, ending, end);
      && (res.Err? ==> a == Refused(res.error) && after == db)
      && (res.Ok? && res.value.state != Reserved ==> a == Replayed(res.value) && after == db)
      && (res.Ok? && res.value.state == Reserved ==>
            match ending
            case Raised => a == Failed
            case Cancelled => a == Interrupted
            case Finished(Infinite) => a == ConversionFailed
            case Finished(_) =>
              res.value.runId == r.runId && Undisturbed(turns, r.runId) ==>
                KeyRow(after, digest(r.key)).Some? && a == Completed(KeyRow(after, digest(r.key)).value))
  {
    hide Inv;
    hide Busy;
    hide Settle;
    hide Undisturbed;
    var (db1, res) := Reserve(limit, digest, db, r, start);
    if Dispatches(limit, digest, db, r, start) && res.value.runId == r.runId && Undisturbed(turns, r.runId)
       && ending.Finished? && !Unhandled(ending) {
      SettlesItsOwn(limit, digest, db, r, start, turns, ending, end);
    }
  }

  lemma SettlesItsOwn(limit: int, digest: string -> string, db: Db, r: Request, start: real, turns: seq<Turn>,
                      ending: Ending, end: real)
    requires Inv(limit, db) && Dispatches(limit, digest, db, r, start) && ending.Finished? && !Unhandled(ending)
    requires Reserve(limit, digest, db, r, start).1.value.runId == r.runId && Undisturbed(turns, r.runId)
    ensures
      var (after, a) := Execute(limit, digest, db, r, start, turns, ending, end);
      KeyRow(after, digest(r.key)).Some? && a == Completed(KeyRow(after, digest(r.key)).value)
  {
    hide Inv;
    hide OpenRow;
    hide Reserve;
    hide Settle;
    hide Busy;
    hide Undisturbed;
    hide VerifiedUnused;
    var (db1, res) := Reserve(limit, digest, db, r, start);
    var i := ReservedRow(limit, digest, db, r, start);
    var busy := Busy(limit, digest, db1, r.runId, turns);
    var after := Finish(busy, r.runId, res.value.held, ending, end).0;
    OwnRunWhileBusy(limit, digest, db1, i, res.value, false, turns);
    OpenRowFound(limit, busy, i, res.value, Commits(turns));
    SettledRow(busy, r.runId, Some(VerifiedUnused(res.value.held, ending.cost)), end);
    FinishKeepsInv(limit, busy, r.runId, res.value.held, ending, end);
    SettledAsPromisedExactly(limit, digest, db, r, start, turns, ending, end);
    assert KeyRow(after, digest(r.key)).Some?;
    OneRowPerRun(limit, after, FindKey(after.runs, digest(r.key)).value, FindRun(busy.runs, r.runId).value);
  }

  lemma OpenRowFound(limit: int, db: Db, i: nat, row: Row, committed: bool)
    requires Inv(limit, db) && OpenRow(db, i, row, committed)
    ensures FindRun(db.runs, row.runId).Some?
  {
  }

  // ---- a call that settles nothing ----

  /** Row i is an open run with its whole hold: dispatched if something was committed, else reserved. */
  ghost predicate LeftOpen(db: Db, i: nat, reservation: Row, committed: bool) {
    && i < |db.runs| && db.runs[i].runId == reservation.runId && db.runs[i].keyDigest == reservation.keyDigest
    && db.runs[i].fingerprint == reservation.fingerprint
    && db.runs[i].held == reservation.held > 0 && db.runs[i].settled == 0
    && db.runs[i].state == (if committed then Dispatched else Reserved)
    && (HasMarker(db.markers, reservation.runId) <==> committed)
  }

  lemma UnhandledCallLeavesRow(limit: int, digest: string -> string, db: Db, r: Request, start: real, turns: seq<Turn>,
                               ending: Ending, end: real) returns (i: nat)
    requires Inv(limit, db) && Dispatches(limit, digest, db, r, start) && Unhandled(ending)
    requires Reserve(limit, digest, db, r, start).1.value.runId == r.runId && Undisturbed(turns, r.runId)
    ensures
      var after := Execute(limit, digest, db, r, start, turns, ending, end).0;
      && Inv(limit, after) && LeftOpen(after, i, Reserve(limit, digest, db, r, start).1.value, Commits(turns))
      && FindKey(after.runs, digest(r.key)) == Some(i)
  {
    hide Inv;
    hide Reserve;
    hide HasMarker;
    var (db1, res) := Reserve(limit, digest, db, r, start);
    i := ReservedRow(limit, digest, db, r, start);
    var busy := Busy(limit, digest, db1, r.runId, turns);
    OwnRunWhileBusy(limit, digest, db1, i, res.value, false, turns);
    BusyEvolves(limit, digest, db1, r.runId, turns);
    StandingStill(limit, busy);
    OpenIdentity(limit, db1, busy, busy, i, digest, turns, r.runId);
    assert RowEvolves(db1.runs[i], busy.runs[i]);
  }

  /** A call under the caller's own run id that is cancelled, or whose cost is infinite, settles and
      releases nothing: the key's run stays RESERVED, or DISPATCHED once something was committed, with
      its whole hold. */
  lemma UnhandledCallKeepsTheHold(limit: int, digest: string -> string, db: Db, r: Request, start: real, turns: seq<Turn>,
                                  ending: Ending, end: real)
    requires Inv(limit, db) && Dispatches(limit, digest, db, r, start) && Unhandled(ending)
    requires Reserve(limit, digest, db, r, start).1.value.runId == r.runId && Undisturbed(turns, r.runId)
    ensures
      var reservation := Reserve(limit, digest, db, r, start).1.value;
      var row := KeyRow(Execute(limit, digest, db, r, start, turns, ending, end).0, digest(r.key));
      && row.Some? && row.value.runId == r.runId && row.value.held == reservation.held > 0 && row.value.settled == 0
      && row.value.state == if Commits(turns) then Dispatched else Reserved
  {
    hide Inv;
    hide Reserve;
    hide Execute;
    hide HasMarker;
    var i := UnhandledCallLeavesRow(limit, digest, db, r, start, turns, ending, end);
  }

  lemma IndexOfKey(limit: int, db: Db, i: nat)
    requires Inv(limit, db) && i < |db.runs|
    ensures FindKey(db.runs, db.runs[i].keyDigest) == Some(i)
  {
    KeyIndex(db.runs, i);
  }

  lemma {:induction false} BusyEvolves(limit: int, digest: string -> string, db: Db, runId: string, turns: seq<Turn>)
    requires Inv(limit, db)
    ensures Inv(limit, Busy(limit, digest, db, runId, turns)) && Evolves(db, Busy(limit, digest, db, runId, turns))
    decreases |turns|
  {
    hide Inv;
    hide Evolves;
    if turns == [] {
      StandingStill(limit, db);
    } else {
      BusyUnfolds(limit, digest, db, runId, turns);
      TurnKeepsInv(limit, digest, db, runId, turns[0]);
      var next := Busy(limit, digest, db, runId, [turns[0]]);
      BusyEvolves(limit, digest, next, runId, turns[1..]);
      EvolvesJoins(db, next, Busy(limit, digest, next, runId, turns[1..]));
    }
  }

  lemma OpenIdentity(limit: int, db: Db, busy: Db, after: Db, i: nat, digest: string -> string, turns: seq<Turn>, runId: string)
    requires Inv(limit, db) && i < |db.runs| && busy == Busy(limit, digest, db, runId, turns)
    requires Inv(limit, after) && Evolves(busy, after)
    ensures i < |after.runs| && after.runs[i].runId == db.runs[i].runId
    ensures FindKey(after.runs, db.runs[i].keyDigest) == Some(i)
  {
    BusyEvolves(limit, digest, db, runId, turns);
    EvolvesJoins(db, busy, after);
    assert RowEvolves(db.runs[i], after.runs[i]);
    KeyIndex(after.runs, i);
  }

  /** Once the run behind a key has a marker, no call for that key, however much later and whatever
      else it asks for, reaches the runner, and none changes the ledger. */
  lemma MarkedKeysNeverDispatchAgain(limit: int, digest: string -> string, db: Db, i: nat, ops: seq<Op>, r: Request,
                                     start: real, turns: seq<Turn>, ending: Ending, end: real)
    requires Inv(limit, db) && i < |db.runs| && HasMarker(db.markers, db.runs[i].runId)
    requires digest(r.key) == db.runs[i].keyDigest
    ensures
      var later := Run(limit, digest, db, ops);
      && !Dispatches(limit, digest, later, r, start)
      && Execute(limit, digest, later, r, start, turns, ending, end).0 == later
  {
    hide Used;
    var later := Run(limit, digest, db, ops);
    RunEvolves(limit, digest, db, ops);
    assert RowEvolves(db.runs[i], later.runs[i]) && RowOk(later.runs[i], later.markers);
    var m :| m in db.markers && m.0 == db.runs[i].runId;
    assert m in later.markers && HasMarker(later.markers, later.runs[i].runId);
    KeyIndex(later.runs, i);
  }

  // ---- the three failing inputs ----

  function OneReserved(): Db {
    Db([Row("first", "key", "print", "day", Reserved, 9, 9, 0, 0.0)], {})
  }

  function RequestAs(runId: string): Request {
    Request(runId, "key", "print", 9, None, "day")
  }

  function Identity(): string -> string {
    s => s
  }

  lemma OneReservedOk()
    ensures Inv(9, OneReserved())
  {
    var db := OneReserved();
    assert db.runs[..0] == [];
    assert RowOk(db.runs[0], {});
    assert forall day :: Used(db.runs, day) == Charged(db.runs[0], day);
  }

  lemma ReplaysReserved(runId: string, now: real)
    requires !Blank(runId)
    ensures Reserve(9, Identity(), OneReserved(), RequestAs(runId), now) == (OneReserved(), Ok(OneReserved().runs[0]))
  {
    assert !IsSpace("key"[0]) && !IsSpace("print"[0]);
    assert OneReserved().runs[..0] == [];
  }

  /** A second call with the same key under another run id, while the first is still reserved, reports
      failure and leaves the key's hold in place. */
  lemma OtherRunIdLeavesTheHold()
    ensures Inv(9, OneReserved()) && Dispatches(9, Identity(), OneReserved(), RequestAs("second"), 1.0)
    ensures Execute(9, Identity(), OneReserved(), RequestAs("second"), 1.0, [], Finished(Known(0.0)), 2.0)
         == (OneReserved(), SettleFailed(UnknownRun))
  {
    OneReservedOk();
    assert !IsSpace("second"[0]);
    ReplaysReserved("second", 1.0);
    assert OneReserved().runs[..0] == [];
    assert "second"[0] != "first"[0];
  }

  /** A call under the run's own id, cancelled at once. */
  lemma CancellationLeavesTheHold()
    ensures Inv(9, OneReserved()) && Dispatches(9, Identity(), OneReserved(), RequestAs("first"), 1.0)
    ensures Execute(9, Identity(), OneReserved(), RequestAs("first"), 1.0, [], Cancelled, 2.0) == (OneReserved(), Interrupted)
  {
    OneReservedOk();
    assert !IsSpace("first"[0]);
    ReplaysReserved("first", 1.0);
  }

  /** A call under the run's own id that dispatches one stage and reports an infinite cost. */
  lemma InfiniteCostLeavesTheHold()
    ensures Inv(9, OneReserved()) && Dispatches(9, Identity(), OneReserved(), RequestAs("first"), 1.0)
    ensures
      var (after, answer) := Execute(9, Identity(), OneReserved(), RequestAs("first"), 1.0, [Commit("stage", 1.5)], Finished(Infinite), 2.0);
      && answer == ConversionFailed
      && after.runs == [OneReserved().runs[0].(state := Dispatched, updatedAt := 1.5)]
  {
    OneReservedOk();
    assert !IsSpace("first"[0]);
    ReplaysReserved("first", 1.0);
    assert OneReserved().runs[..0] == [];
    var turns := [Commit("stage", 1.5)];
    assert turns[1..] == [];
    BusyUnfolds(9, Identity(), OneReserved(), "first", turns);
  }

  // ---- the service object ----

  class Service {
    const ledger: Tier5BudgetLedger.Ledger

    constructor (ledger: Tier5BudgetLedger.Ledger)
      ensures this.ledger == ledger
    {
      this.ledger := ledger;
    }

    /** A transaction of another client. */
    method Interleave(op: Op)
      requires ledger.Valid()
      modifies ledger
      ensures ledger.Valid() && ledger.Tables() == Step(ledger.dailyLimit, ledger.digest, old(ledger.Tables()), op)
    {
      hide Inv;
      match op
      case OpReserve(r, now) => var _ := ledger.ReserveFunds(r, now);
      case OpMark(runId, stage, now) => var _ := ledger.Mark(runId, stage, now);
      case OpSettle(runId, unused, now) => var _ := ledger.SettleRun(runId, unused, now);
      case OpRelease(runId, now) => var _ := ledger.Release(runId, now);
      case OpRecover(before, now) => var _, _ := ledger.Recover(before, now);
    }

    method RunExecution(r: Request, start: real, turns: seq<Turn>, ending: Ending, end: real) returns (a: Answer)
      requires ledger.Valid()
      modifies ledger
      ensures ledger.Valid()
      ensures (ledger.Tables(), a) == Execute(ledger.dailyLimit, ledger.digest, old(ledger.Tables()), r, start, turns, ending, end)
    {
      hide Inv;
      hide Evolves;
      hide Reserve;
      hide Step;
      hide Settle;
      hide ReleasePreDispatch;
      hide MarkDispatch;
      var res := ledger.ReserveFunds(r, start);
      if res.Err? {
        return Refused(res.error);
      }
      if res.value.state != Reserved {
        return Replayed(res.value);
      }
      ghost var goal := Busy(ledger.dailyLimit, ledger.digest, ledger.Tables(), r.runId, turns);
      for k := 0 to |turns|
        invariant ledger.Valid()
        invariant goal == Busy(ledger.dailyLimit, ledger.digest, ledger.Tables(), r.runId, turns[k..])
      {
        assert turns[k..][1..] == turns[k + 1..];
        match turns[k] {
          case Commit(stage, now) => var _ := ledger.Mark(r.runId, stage, now);
          case Other(op) => Interleave(op);
        }
      }
      if ending.Cancelled? {
        return Interrupted;
      }
      if ending == Finished(Infinite) {
        return ConversionFailed;
      }
      if ending.Raised? {
        if HasMarker(ledger.markers, r.runId) {
          var _ := ledger.SettleRun(r.runId, Some(0), end);
        } else {
          var _ := ledger.Release(r.runId, end);
        }
        return Failed;
      }
      var unused := 0;
      if ending.cost.Known? && ending.cost.usd >= 0.0 {
        var actual := ToMicroUsd(ending.cost.usd);
        unused := Max(0, res.value.held - actual);
      }
      var settled := ledger.SettleRun(r.runId, Some(unused), end);
      if settled.Err? {
        return SettleFailed(settled.error);
      }
      return Completed(settled.value);
    }
  }
}
