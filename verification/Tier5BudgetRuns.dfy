/** What every run of the ledger guarantees, however its clients interleave. */
module Tier5BudgetRuns {
  import opened Prelude
  import opened Text
  import opened Tier5Budget

  function Opened(): Db {
    Db([], {})
  }

  lemma OpenedOk(limit: int)
    requires limit > 0
    ensures Inv(limit, Opened())
  {
  }

  lemma EvolvesJoins(a: Db, b: Db, c: Db)
    requires Evolves(a, b) && Evolves(b, c)
    ensures Evolves(a, c)
  {
    forall i | 0 <= i < |a.runs|
      ensures RowEvolves(a.runs[i], c.runs[i])
    {
      assert RowEvolves(a.runs[i], b.runs[i]) && RowEvolves(b.runs[i], c.runs[i]);
    }
  }

  /** Money only shrinks, identities and terminal rows are fixed, markers only accumulate. */
  lemma {:induction false} RunEvolves(limit: int, digest: string -> string, db: Db, ops: seq<Op>)
    requires Inv(limit, db)
    ensures Inv(limit, Run(limit, digest, db, ops)) && Evolves(db, Run(limit, digest, db, ops))
    decreases |ops|
  {
    hide Step;
    hide Inv;
    hide Evolves;
    if ops == [] {
      StandingStill(limit, db);
    } else {
      StepKeepsInv(limit, digest, db, ops[0]);
      var mid := Step(limit, digest, db, ops[0]);
      RunEvolves(limit, digest, mid, ops[1..]);
      EvolvesJoins(db, mid, Run(limit, digest, mid, ops[1..]));
    }
  }

  /** Everything held or settled on a day, by any run in any state. */
  function DayTotal(runs: seq<Row>, day: string): int {
    if runs == [] then 0
    else DayTotal(runs[1..], day) + if runs[0].day == day then runs[0].held + runs[0].settled else 0
  }

  lemma {:induction false} UsedSplits(a: seq<Row>, b: seq<Row>, day: string)
    ensures Used(a + b, day) == Used(a, day) + Used(b, day)
  {
    if b == [] {
      assert a + b == a;
    } else {
      var n := |b| - 1;
      assert (a + b)[..|a + b| - 1] == a + b[..n];
      UsedSplits(a, b[..n], day);
    }
  }

  lemma {:induction false} DayTotalIsUsed(runs: seq<Row>, day: string)
    requires forall i :: 0 <= i < |runs| ==> runs[i].state == Released ==> runs[i].held + runs[i].settled == 0
    ensures DayTotal(runs, day) == Used(runs, day)
  {
    if runs != [] {
      assert runs == [runs[0]] + runs[1..];
      assert [runs[0]][..0] == [];
      UsedSplits([runs[0]], runs[1..], day);
      DayTotalIsUsed(runs[1..], day);
    }
  }

  /** Budget safety: in every reachable state, whatever steps the clients interleaved, no day has
      more than its limit held and settled. */
  lemma DailyLimitHolds(limit: int, digest: string -> string, ops: seq<Op>, day: string)
    requires limit > 0
    ensures DayTotal(Run(limit, digest, Opened(), ops).runs, day) <= limit
  {
    OpenedOk(limit);
    RunEvolves(limit, digest, Opened(), ops);
    var db := Run(limit, digest, Opened(), ops);
    ReleasedHoldNothing(limit, db);
    DayTotalIsUsed(db.runs, day);
  }

  /** In every reachable state a RESERVED run has no marker, a DISPATCHED or consumed one has, nothing
      is held in a terminal state, and no run carries more than its policy cap. */
  lemma RowsAreConsistent(limit: int, digest: string -> string, ops: seq<Op>, i: nat)
    requires limit > 0 && i < |Run(limit, digest, Opened(), ops).runs|
    ensures
      var db := Run(limit, digest, Opened(), ops);
      var row := db.runs[i];
      var marked := exists stage :: (row.runId, stage) in db.markers;
      && (row.state == Reserved ==> !marked)
      && (row.state == Dispatched || row.state == ConsumedUnknown ==> marked)
      && (Terminal(row.state) ==> row.held == 0)
      && 0 <= row.held + row.settled <= row.policyCap
  {
    OpenedOk(limit);
    RunEvolves(limit, digest, Opened(), ops);
    var db := Run(limit, digest, Opened(), ops);
    var row := db.runs[i];
    assert RowOk(row, db.markers);
    if HasMarker(db.markers, row.runId) {
      var m :| m in db.markers && m.0 == row.runId;
      assert m == (row.runId, m.1);
    }
  }

  /** The reservation a step creates. */
  predicate Reserves(limit: int, digest: string -> string, db: Db, r: Request, now: real) {
    var (after, res) := Reserve(limit, digest, db, r, now);
    res.Ok? && after != db
  }

  // ---- what a reservation holds ----

  /** A fresh grant adds exactly one row: RESERVED, holding the whole worst case with nothing settled,
      under the request's identity and a cap that covers it, and nothing else changes. */
  lemma FreshGrantHoldsTheWorstCase(limit: int, digest: string -> string, db: Db, r: Request, now: real)
    requires Inv(limit, db) && Reserves(limit, digest, db, r, now)
    ensures
      var (after, res) := Reserve(limit, digest, db, r, now);
      && after.markers == db.markers && |after.runs| == |db.runs| + 1 && after.runs[..|db.runs|] == db.runs
      && res == Ok(after.runs[|db.runs|])
      && after.runs[|db.runs|].state == Reserved
      && after.runs[|db.runs|].held == r.worstCase > 0 && after.runs[|db.runs|].settled == 0
      && after.runs[|db.runs|].runId == r.runId && after.runs[|db.runs|].keyDigest == digest(r.key)
      && after.runs[|db.runs|].fingerprint == r.fingerprint && after.runs[|db.runs|].day == r.day
      && after.runs[|db.runs|].updatedAt == now
      && after.runs[|db.runs|].policyCap ==
           (var left := limit - DayTotal(db.runs, r.day);
            var ceiling := if r.explicitCap.Some? then r.explicitCap.value else left - 1_000_000;
            if ceiling > left then left else ceiling)
  {
    ReleasedHoldNothing(limit, db);
    DayTotalIsUsed(db.runs, r.day);
  }

  /** The requests that were freshly granted in a run, in order. */
  function Grants(limit: int, digest: string -> string, db: Db, ops: seq<Op>): seq<Request>
    decreases |ops|
  {
    if ops == [] then []
    else
      (if ops[0].OpReserve? && Reserves(limit, digest, db, ops[0].request, ops[0].now) then [ops[0].request] else [])
      + Grants(limit, digest, Step(limit, digest, db, ops[0]), ops[1..])
  }

  /** Row i belongs to the i-th granted request, and holds its worst case as long as it is open. */
  ghost predicate GrantedRow(digest: string -> string, row: Row, r: Request) {
    && row.runId == r.runId && row.keyDigest == digest(r.key) && row.fingerprint == r.fingerprint && row.day == r.day
    && (!Terminal(row.state) ==> row.held == r.worstCase && row.settled == 0)
  }

  ghost predicate GrantedRows(digest: string -> string, runs: seq<Row>, grants: seq<Request>) {
    |runs| == |grants| && forall i :: 0 <= i < |runs| ==> GrantedRow(digest, runs[i], grants[i])
  }

  lemma GrantedRowsEvolve(limit: int, digest: string -> string, db: Db, after: Db, grants: seq<Request>, i: nat)
    requires GrantedRows(digest, db.runs, grants) && Evolves(db, after) && Inv(limit, after) && i < |db.runs|
    ensures i < |after.runs| && GrantedRow(digest, after.runs[i], grants[i])
  {
    hide Used;
    assert GrantedRow(digest, db.runs[i], grants[i]);
    assert RowEvolves(db.runs[i], after.runs[i]);
    assert RowOk(after.runs[i], after.markers);
  }

  /** The rows a step adds: the granted one, or none. */
  lemma AddedRows(limit: int, digest: string -> string, db: Db, op: Op)
    requires Inv(limit, db)
    ensures
      var after := Step(limit, digest, db, op);
      if op.OpReserve? && Reserves(limit, digest, db, op.request, op.now) then
        |after.runs| == |db.runs| + 1 && GrantedRow(digest, after.runs[|db.runs|], op.request)
      else |after.runs| == |db.runs|
  {
    hide Inv;
    hide Used;
    hide RowOk;
    if op.OpReserve? && Reserves(limit, digest, db, op.request, op.now) {
      FreshGrantHoldsTheWorstCase(limit, digest, db, op.request, op.now);
    }
  }

  lemma GrantStep(limit: int, digest: string -> string, db: Db, grants: seq<Request>, op: Op)
    requires Inv(limit, db) && GrantedRows(digest, db.runs, grants)
    ensures GrantedRows(digest, Step(limit, digest, db, op).runs, grants + Grants(limit, digest, db, [op]))
  {
    hide Inv;
    hide Step;
    hide Reserves;
    hide Evolves;
    hide GrantedRow;
    StepKeepsInv(limit, digest, db, op);
    AddedRows(limit, digest, db, op);
    var after := Step(limit, digest, db, op);
    var new_ := if op.OpReserve? && Reserves(limit, digest, db, op.request, op.now) then [op.request] else [];
    assert [op][1..] == [];
    assert Grants(limit, digest, db, [op]) == new_ + Grants(limit, digest, after, [op][1..]);
    assert Grants(limit, digest, db, [op]) == new_;
    forall i | 0 <= i < |db.runs|
      ensures GrantedRow(digest, after.runs[i], grants[i])
    {
      GrantedRowsEvolve(limit, digest, db, after, grants, i);
    }
  }

  lemma GrantsUnfold(limit: int, digest: string -> string, db: Db, ops: seq<Op>)
    requires ops != []
    ensures Grants(limit, digest, db, ops)
         == Grants(limit, digest, db, [ops[0]]) + Grants(limit, digest, Step(limit, digest, db, ops[0]), ops[1..])
  {
    hide Step;
    hide Reserves;
    var one := [ops[0]];
    assert one[1..] == [];
    assert Grants(limit, digest, Step(limit, digest, db, one[0]), one[1..]) == [];
  }

  lemma {:induction false} GrantsMatchRows(limit: int, digest: string -> string, db: Db, grants: seq<Request>, ops: seq<Op>)
    requires Inv(limit, db) && GrantedRows(digest, db.runs, grants)
    ensures GrantedRows(digest, Run(limit, digest, db, ops).runs, grants + Grants(limit, digest, db, ops))
    decreases |ops|
  {
    hide Step;
    hide Inv;
    hide GrantedRows;
    if ops == [] {
      assert grants + [] == grants;
    } else {
      var first := Grants(limit, digest, db, [ops[0]]);
      var rest := Grants(limit, digest, Step(limit, digest, db, ops[0]), ops[1..]);
      StepKeepsInv(limit, digest, db, ops[0]);
      GrantStep(limit, digest, db, grants, ops[0]);
      GrantsUnfold(limit, digest, db, ops);
      GrantsMatchRows(limit, digest, Step(limit, digest, db, ops[0]), grants + first, ops[1..]);
      assert (grants + first) + rest == grants + (first + rest);
    }
  }

  /** The worst cases of a day's open runs, taken from their requests. */
  function OpenWorstCases(runs: seq<Row>, grants: seq<Request>, day: string): int
    requires |runs| == |grants|
  {
    if runs == [] then 0
    else
      OpenWorstCases(runs[1..], grants[1..], day)
      + if grants[0].day == day && (runs[0].state == Reserved || runs[0].state == Dispatched) then grants[0].worstCase else 0
  }

  function SettledTotal(runs: seq<Row>, day: string): int {
    if runs == [] then 0
    else SettledTotal(runs[1..], day) + if runs[0].day == day then runs[0].settled else 0
  }

  lemma {:induction false} OpenPlusSettled(digest: string -> string, runs: seq<Row>, grants: seq<Request>, markers: Markers, day: string)
    requires GrantedRows(digest, runs, grants) && forall i :: 0 <= i < |runs| ==> RowOk(runs[i], markers)
    ensures OpenWorstCases(runs, grants, day) + SettledTotal(runs, day) == DayTotal(runs, day)
  {
    if runs != [] {
      assert GrantedRow(digest, runs[0], grants[0]) && RowOk(runs[0], markers);
      forall i | 0 <= i < |runs[1..]|
        ensures GrantedRow(digest, runs[1..][i], grants[1..][i]) && RowOk(runs[1..][i], markers)
      {
        assert GrantedRow(digest, runs[i + 1], grants[i + 1]) && RowOk(runs[i + 1], markers);
      }
      OpenPlusSettled(digest, runs[1..], grants[1..], markers, day);
    }
  }

  /** The sum law, over every interleaving: the worst cases that were requested for a day's runs that are
      still RESERVED or DISPATCHED, plus everything settled for that day, never exceed the limit. */
  lemma OpenWorstCasesStayWithinTheLimit(limit: int, digest: string -> string, ops: seq<Op>, day: string)
    requires limit > 0
    ensures
      var runs, grants := Run(limit, digest, Opened(), ops).runs, Grants(limit, digest, Opened(), ops);
      |runs| == |grants| && OpenWorstCases(runs, grants, day) + SettledTotal(runs, day) <= limit
  {
    hide Grants;
    OpenedOk(limit);
    RunEvolves(limit, digest, Opened(), ops);
    GrantsMatchRows(limit, digest, Opened(), [], ops);
    var db, grants := Run(limit, digest, Opened(), ops), Grants(limit, digest, Opened(), ops);
    assert [] + grants == grants;
    OpenPlusSettled(digest, db.runs, grants, db.markers, day);
    DailyLimitHolds(limit, digest, ops, day);
  }

  /** From its reservation on, a run never carries more than its worst case, over any later steps. */
  lemma WorstCaseIsNeverExceeded(limit: int, digest: string -> string, db: Db, r: Request, now: real, ops: seq<Op>)
    requires Inv(limit, db) && Reserves(limit, digest, db, r, now)
    ensures
      var end := Run(limit, digest, Reserve(limit, digest, db, r, now).0, ops);
      var i := |db.runs|;
      && i < |end.runs| && end.runs[i].runId == r.runId && end.runs[i].keyDigest == digest(r.key)
      && end.runs[i].fingerprint == r.fingerprint && end.runs[i].day == r.day
      && 0 <= end.runs[i].held + end.runs[i].settled <= r.worstCase
  {
    hide Used;
    hide Inv;
    hide RowOk;
    ReserveKeepsInv(limit, digest, db, r, now);
    var start := Reserve(limit, digest, db, r, now).0;
    RunEvolves(limit, digest, start, ops);
    assert RowEvolves(start.runs[|db.runs|], Run(limit, digest, start, ops).runs[|db.runs|]);
  }

  /** Once terminal, a run's state and amounts never change again. */
  lemma TerminalRunsAreFrozen(limit: int, digest: string -> string, db: Db, ops: seq<Op>, i: nat)
    requires Inv(limit, db) && i < |db.runs| && Terminal(db.runs[i].state)
    ensures i < |Run(limit, digest, db, ops).runs| && Run(limit, digest, db, ops).runs[i] == db.runs[i]
  {
    RunEvolves(limit, digest, db, ops);
    assert RowEvolves(db.runs[i], Run(limit, digest, db, ops).runs[i]);
  }

  /** No step releases a run that has a marker at that moment, and no step that releases a run marks it. */
  lemma ReleaseNeedsNoMarker(limit: int, digest: string -> string, db: Db, op: Op, i: nat)
    requires Inv(limit, db) && i < |db.runs| && db.runs[i].state != Released
    requires Step(limit, digest, db, op).runs[i].state == Released
    ensures !HasMarker(db.markers, db.runs[i].runId) && Step(limit, digest, db, op).markers == db.markers
    ensures op.OpRelease? || op.OpRecover?
  {
    assert RowOk(db.runs[i], db.markers);
  }

  // ---- markers ----

  predicate Marks(op: Op, runId: string) {
    op.OpMark? && op.runId == runId
  }

  lemma StepMarkers(limit: int, digest: string -> string, db: Db, op: Op, runId: string)
    requires FindRun(db.runs, runId).Some?
    ensures HasMarker(Step(limit, digest, db, op).markers, runId) <==> HasMarker(db.markers, runId) || Marks(op, runId)
  {
    if op.OpMark? {
      var after := Step(limit, digest, db, op).markers;
      if op.runId == runId {
        assert (runId, op.stage) in after;
      } else {
        OtherMarkers(db.markers, after, op.runId, runId);
      }
    }
  }

  /** A run has a marker exactly when it had one or some later step marked it: in particular a
      RELEASED run acquires markers exactly when it is marked late. */
  lemma {:induction false} MarkersComeFromMarking(limit: int, digest: string -> string, db: Db, ops: seq<Op>, runId: string)
    requires Inv(limit, db) && FindRun(db.runs, runId).Some?
    ensures HasMarker(Run(limit, digest, db, ops).markers, runId) <==>
            HasMarker(db.markers, runId) || exists k :: 0 <= k < |ops| && Marks(ops[k], runId)
    decreases |ops|
  {
    hide Step;
    hide Inv;
    hide HasMarker;
    if ops != [] {
      var mid := Step(limit, digest, db, ops[0]);
      StepMarkers(limit, digest, db, ops[0], runId);
      StepKeepsInv(limit, digest, db, ops[0]);
      SameRunsFound(db.runs, mid.runs, runId);
      MarkersComeFromMarking(limit, digest, mid, ops[1..], runId);
      assert ops == [ops[0]] + ops[1..];
      assert forall k :: 1 <= k < |ops| ==> ops[k] == ops[1..][k - 1];
      assert forall k :: 0 <= k < |ops| - 1 ==> ops[1..][k] == ops[k + 1];
    }
  }

  /** "RELEASED runs never have markers" is false: a late dispatch marks a released run. */
  lemma ReleasedRunsCanBeMarked()
    ensures
      var r := Request("run", "key", "print", 1, Some(1), "2026-01-01");
      var ops := [OpReserve(r, 0.0), OpRelease("run", 1.0), OpMark("run", "stage", 2.0)];
      var db := Run(5, (s: string) => s, Opened(), ops);
      |db.runs| == 1 && db.runs[0].state == Released && HasMarker(db.markers, "run")
  {
    var id := (s: string) => s;
    var r := Request("run", "key", "print", 1, Some(1), "2026-01-01");
    assert !IsSpace("run"[0]) && !IsSpace("key"[0]) && !IsSpace("print"[0]);
    var reserve, release, mark := OpReserve(r, 0.0), OpRelease("run", 1.0), OpMark("run", "stage", 2.0);
    var ops := [reserve, release, mark];
    var one := Step(5, id, Opened(), reserve);
    assert one == Db([Row("run", "key", "print", "2026-01-01", Reserved, 1, 1, 0, 0.0)], {});
    assert one.runs[..0] == [];
    var two := Step(5, id, one, release);
    assert two.runs == [ReleaseRow(one.runs[0], 1.0)] && two.runs[..0] == [];
    var three := Step(5, id, two, mark);
    assert ("run", "stage") in three.markers;
    assert ops[1..] == [release, mark] && [release, mark][1..] == [mark] && [mark][1..] == [];
    assert Run(5, id, two, [mark]) == Run(5, id, three, [mark][1..]);
    assert Run(5, id, one, [release, mark]) == Run(5, id, two, [release, mark][1..]);
  }

  // ---- idempotent reservations ----

  lemma KeyIndex(runs: seq<Row>, i: nat)
    requires Unique(runs) && i < |runs|
    ensures FindKey(runs, runs[i].keyDigest) == Some(i)
  {
  }

  /** After a reservation and any later steps, a repeated reservation with the same key and
      fingerprint returns that same run as it now stands, one with another fingerprint is refused,
      and neither changes anything, however the other arguments differ. */
  lemma RepeatedKeysReplay(limit: int, digest: string -> string, db: Db, i: nat, ops: seq<Op>, again: Request, now: real)
    requires Inv(limit, db) && i < |db.runs|
    requires digest(again.key) == db.runs[i].keyDigest && !BadRequest(again)
    ensures
      var end := Run(limit, digest, db, ops);
      && i < |end.runs| && end.runs[i].runId == db.runs[i].runId
      && Reserve(limit, digest, end, again, now) ==
           (end, if again.fingerprint == db.runs[i].fingerprint then Ok(end.runs[i]) else Err(Conflict))
  {
    RunEvolves(limit, digest, db, ops);
    var end := Run(limit, digest, db, ops);
    assert RowEvolves(db.runs[i], end.runs[i]);
    KeyIndex(end.runs, i);
  }

  /** A well-formed request under a new key and run id is granted exactly when its worst case fits
      what is left of its day, under its explicit cap or with a whole unit kept back. */
  lemma FreshRequestsAreGrantedExactly(limit: int, digest: string -> string, db: Db, r: Request, now: real)
    requires Inv(limit, db) && !BadRequest(r)
    requires forall i :: 0 <= i < |db.runs| ==> db.runs[i].keyDigest != digest(r.key) && db.runs[i].runId != r.runId
    ensures
      var left := limit - DayTotal(db.runs, r.day);
      Reserve(limit, digest, db, r, now).1.Ok? <==>
        r.worstCase <= left &&
        if r.explicitCap.Some? then r.worstCase <= r.explicitCap.value else r.worstCase + 1_000_000 <= left
  {
    ReleasedHoldNothing(limit, db);
    DayTotalIsUsed(db.runs, r.day);
  }

  /** Why a well-formed request under a new key is refused: it does not fit its day, or it fits but its run
      id is taken. A refusal changes nothing. */
  lemma RefusalsSayWhy(limit: int, digest: string -> string, db: Db, r: Request, now: real)
    requires Inv(limit, db) && !BadRequest(r)
    requires forall i :: 0 <= i < |db.runs| ==> db.runs[i].keyDigest != digest(r.key)
    ensures
      var left := limit - DayTotal(db.runs, r.day);
      var fits := r.worstCase <= left &&
        if r.explicitCap.Some? then r.worstCase <= r.explicitCap.value else r.worstCase + 1_000_000 <= left;
      var taken := exists i :: 0 <= i < |db.runs| && db.runs[i].runId == r.runId;
      var (after, res) := Reserve(limit, digest, db, r, now);
      && (res == Err(Insufficient) <==> !fits) && (res == Err(DuplicateRun) <==> fits && taken)
      && (res.Ok? <==> fits && !taken) && (res.Err? ==> after == db)
  {
    ReleasedHoldNothing(limit, db);
    DayTotalIsUsed(db.runs, r.day);
  }

  /** Nothing can be marked, settled or released under a run id that has no run. */
  lemma UnknownRunsAreRefused(db: Db, runId: string, stage: string, unused: Option<int>, now: real)
    requires forall i :: 0 <= i < |db.runs| ==> db.runs[i].runId != runId
    ensures MarkDispatch(db, runId, stage, now) == (db, Err(UnknownRun))
    ensures Settle(db, runId, unused, now) == (db, Err(UnknownRun))
    ensures ReleasePreDispatch(db, runId, now) == (db, Err(UnknownRun))
  {
  }

  // ---- the other transactions, in numbers ----

  /** Marking records the stage whatever the state of the run, and dispatches exactly a RESERVED one. */
  lemma MarkingDispatchesExactly(limit: int, db: Db, i: nat, stage: string, now: real)
    requires Inv(limit, db) && i < |db.runs|
    ensures
      var (after, res) := MarkDispatch(db, db.runs[i].runId, stage, now);
      && res.Ok? && after.markers == db.markers + {(db.runs[i].runId, stage)} && |after.runs| == |db.runs|
      && (forall j :: 0 <= j < |db.runs| && j != i ==> after.runs[j] == db.runs[j])
      && if db.runs[i].state == Reserved then
           && after.runs[i].state == Dispatched && after.runs[i].updatedAt == now
           && after.runs[i].held == db.runs[i].held && after.runs[i].settled == 0
         else after.runs[i] == db.runs[i]
  {
    RowIndex(db.runs, i);
    assert RowOk(db.runs[i], db.markers);
  }

  lemma RowIndex(runs: seq<Row>, i: nat)
    requires Unique(runs) && i < |runs|
    ensures FindRun(runs, runs[i].runId) == Some(i)
  {
  }

  /** Settling an open run charges its hold less what is verified unused, or all of it when that is
      missing or out of range, and leaves nothing held; a terminal run and all others stay as they are. */
  lemma SettlingChargesExactly(limit: int, db: Db, i: nat, unused: Option<int>, now: real)
    requires Inv(limit, db) && i < |db.runs|
    ensures
      var (after, res) := Settle(db, db.runs[i].runId, unused, now);
      && |after.runs| == |db.runs| && after.markers == db.markers && res == Ok(after.runs[i])
      && (forall j :: 0 <= j < |db.runs| && j != i ==> after.runs[j] == db.runs[j])
      && if db.runs[i].state == Reserved || db.runs[i].state == Dispatched then
           && after.runs[i].state == Settled && after.runs[i].held == 0 && after.runs[i].updatedAt == now
           && after.runs[i].settled ==
                db.runs[i].held - (if unused.Some? && 0 <= unused.value <= db.runs[i].held then unused.value else 0)
         else after.runs[i] == db.runs[i]
  {
    RowIndex(db.runs, i);
  }

  /** Releasing succeeds exactly for a RESERVED run without a marker, and then frees its whole hold. */
  lemma ReleasingFreesExactly(limit: int, db: Db, i: nat, now: real)
    requires Inv(limit, db) && i < |db.runs|
    ensures
      var (after, res) := ReleasePreDispatch(db, db.runs[i].runId, now);
      var marked := exists stage :: (db.runs[i].runId, stage) in db.markers;
      && after.markers == db.markers && |after.runs| == |db.runs|
      && (forall j :: 0 <= j < |db.runs| && j != i ==> after.runs[j] == db.runs[j])
      && if db.runs[i].state == Reserved && !marked then
           res == Ok(after.runs[i]) && after.runs[i].state == Released && after.runs[i].held == 0 && after.runs[i].settled == 0
         else res == Err(if marked then AlreadyMarked else NotReserved) && after.runs[i] == db.runs[i]
  {
    RowIndex(db.runs, i);
    MarkedExactly(db.markers, db.runs[i].runId);
    assert RowOk(db.runs[i], db.markers);
  }

  lemma MarkedExactly(markers: Markers, runId: string)
    ensures HasMarker(markers, runId) <==> exists stage :: (runId, stage) in markers
  {
    if HasMarker(markers, runId) {
      var m :| m in markers && m.0 == runId;
      assert (runId, m.1) == m;
    }
  }

  /** A sweep ends exactly the open runs that were last updated before its limit: a RESERVED one is
      released with nothing charged, a DISPATCHED one consumed with its whole hold charged. */
  lemma SweepingEndsExactly(limit: int, db: Db, i: nat, before: real, now: real)
    requires Inv(limit, db) && i < |db.runs|
    ensures
      var row, swept := db.runs[i], RecoverExpired(db, before, now).runs[i];
      if row.updatedAt < before && row.state == Reserved then
        swept.state == Released && swept.held == 0 && swept.settled == 0 && swept.updatedAt == now
      else if row.updatedAt < before && row.state == Dispatched then
        swept.state == ConsumedUnknown && swept.held == 0 && swept.settled == row.held && swept.updatedAt == now
      else swept == row
  {
    assert RowOk(db.runs[i], db.markers);
  }

  predicate IsStale(row: Row, state: RunState, before: real) {
    row.state == state && row.updatedAt < before
  }

  /** The rows with a state that were last updated before a time. */
  function StaleRows(runs: seq<Row>, state: RunState, before: real): set<int> {
    set i | 0 <= i < |runs| && IsStale(runs[i], state, before)
  }

  lemma StaleRowsMember(runs: seq<Row>, state: RunState, before: real, i: int)
    ensures i in StaleRows(runs, state, before) <==> 0 <= i < |runs| && IsStale(runs[i], state, before)
  {
  }

  lemma StaleRowsStep(runs: seq<Row>, state: RunState, before: real)
    requires runs != []
    ensures
      var n := |runs| - 1;
      |StaleRows(runs, state, before)|
        == |StaleRows(runs[..n], state, before)| + if IsStale(runs[n], state, before) then 1 else 0
  {
    hide StaleRows;
    hide IsStale;
    var n := |runs| - 1;
    var all, front := StaleRows(runs, state, before), StaleRows(runs[..n], state, before);
    var last := if IsStale(runs[n], state, before) then {n} else {};
    forall i: int
      ensures i in all <==> i in front + last
    {
      StaleRowsMember(runs, state, before, i);
      StaleRowsMember(runs[..n], state, before, i);
    }
    assert all == front + last;
    StaleRowsMember(runs[..n], state, before, n);
  }

  /** A sweep reports how many runs it released and how many it consumed. */
  lemma {:induction false} SweptRunsAreCounted(runs: seq<Row>, markers: Markers, before: real)
    requires forall i :: 0 <= i < |runs| ==> RowOk(runs[i], markers)
    ensures CountUnmarked(runs, markers, before) == |StaleRows(runs, Reserved, before)|
    ensures CountMarked(runs, markers, before) == |StaleRows(runs, Dispatched, before)|
  {
    hide HasMarker;
    if runs == [] {
      assert StaleRows(runs, Reserved, before) == {} && StaleRows(runs, Dispatched, before) == {};
    } else {
      var n := |runs| - 1;
      assert RowOk(runs[n], markers);
      SweptRunsAreCounted(runs[..n], markers, before);
      StaleRowsStep(runs, Reserved, before);
      StaleRowsStep(runs, Dispatched, before);
    }
  }

  /** Requests are malformed exactly when one of the three names is empty once stripped, or an amount is
      not positive, and then nothing changes. */
  lemma MalformedRequestsAreRefused(limit: int, digest: string -> string, db: Db, r: Request, now: real)
    ensures Reserve(limit, digest, db, r, now) == (db, Err(InvalidArgument)) <==>
      || Strip(r.runId) == "" || Strip(r.key) == "" || Strip(r.fingerprint) == "" || r.worstCase <= 0
      || (r.explicitCap.Some? && r.explicitCap.value <= 0)
  {
    StripBlank(r.runId);
    StripBlank(r.key);
    StripBlank(r.fingerprint);
  }
}
