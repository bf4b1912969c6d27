/** The Tier-5 budget ledger (orchestrator/tier5_budget.py:205-396). Every ledger method is one
    atomic transaction, so a run is any sequence of steps, whoever issues them. Amounts are whole
    micro-USD. The functions specify the steps; the object is in Tier5BudgetLedger. */
module Tier5Budget {
  import opened Prelude
  import opened Text

  const MICROUSD_PER_USD := 1_000_000

  datatype RunState = Reserved | Dispatched | Settled | Released | ConsumedUnknown

  datatype Row = Row(
    runId: string,
    keyDigest: string,
    fingerprint: string,
    day: string,
    state: RunState,
    policyCap: int,
    held: int,
    settled: int,
    updatedAt: real)

  type Markers = set<(string, string)>

  /** The two tables: one row per run, and the (run, stage) dispatch markers. */
  datatype Db = Db(runs: seq<Row>, markers: Markers)

  datatype BudgetError =
    InvalidArgument | Conflict | Insufficient | DuplicateRun | UnknownRun | AlreadyMarked | NotReserved

  predicate Terminal(s: RunState) {
    s == Settled || s == Released || s == ConsumedUnknown
  }

  predicate HasMarker(markers: Markers, runId: string) {
    exists m :: m in markers && m.0 == runId
  }

  function FindRun(runs: seq<Row>, runId: string): (r: Option<nat>)
    ensures r.Some? ==> r.value < |runs| && runs[r.value].runId == runId
    ensures r.None? ==> forall i :: 0 <= i < |runs| ==> runs[i].runId != runId
  {
    if runs == [] then None
    else
      var n := |runs| - 1;
      var front := FindRun(runs[..n], runId);
      if front.Some? then front
      else if runs[n].runId == runId then Some(n)
      else None
  }

  function FindKey(runs: seq<Row>, keyDigest: string): (r: Option<nat>)
    ensures r.Some? ==> r.value < |runs| && runs[r.value].keyDigest == keyDigest
    ensures r.None? ==> forall i :: 0 <= i < |runs| ==> runs[i].keyDigest != keyDigest
  {
    if runs == [] then None
    else
      var n := |runs| - 1;
      var front := FindKey(runs[..n], keyDigest);
      if front.Some? then front
      else if runs[n].keyDigest == keyDigest then Some(n)
      else None
  }

  function Charged(row: Row, day: string): int {
    if row.day == day && row.state != Released then row.held + row.settled else 0
  }

  /** What `reserve` sees as used on a day. */
  function Used(runs: seq<Row>, day: string): int {
    if runs == [] then 0 else Used(runs[..|runs| - 1], day) + Charged(runs[|runs| - 1], day)
  }

  // ---- the steps ----

  datatype Request = Request(
    runId: string,
    key: string,
    fingerprint: string,
    worstCase: int,
    explicitCap: Option<int>,
    day: string)

  predicate BadRequest(r: Request) {
    || Blank(r.runId) || Blank(r.key) || Blank(r.fingerprint) || r.worstCase <= 0
    || (r.explicitCap.Some? && r.explicitCap.value <= 0)
  }

  /** The most this run may cost, clipped to what is left of the day. */
  function PolicyCap(remaining: int, explicitCap: Option<int>): int {
    Min(if explicitCap.Some? then explicitCap.value else remaining - MICROUSD_PER_USD, remaining)
  }

  function Reserve(limit: int, digest: string -> string, db: Db, r: Request, now: real): (Db, Result<Row, BudgetError>) {
    if BadRequest(r) then (db, Err(InvalidArgument))
    else
      var existing := FindKey(db.runs, digest(r.key));
      if existing.Some? then
        var row := db.runs[existing.value];
        (db, if row.fingerprint != r.fingerprint then Err(Conflict) else Ok(row))
      else
        var cap := PolicyCap(limit - Used(db.runs, r.day), r.explicitCap);
        if cap <= 0 || r.worstCase > cap then (db, Err(Insufficient))
        else if FindRun(db.runs, r.runId).Some? then (db, Err(DuplicateRun))
        else
          var row := Row(r.runId, digest(r.key), r.fingerprint, r.day, Reserved, cap, r.worstCase, 0, now);
          (db.(runs := db.runs + [row]), Ok(row))
  }

  function MarkRow(row: Row, now: real): Row {
    if row.state == Reserved then row.(state := Dispatched, updatedAt := now) else row
  }

  function MarkDispatch(db: Db, runId: string, stage: string, now: real): (Db, Result<(), BudgetError>) {
    var i := FindRun(db.runs, runId);
    if i.None? then (db, Err(UnknownRun))
    else (Db(db.runs[i.value := MarkRow(db.runs[i.value], now)], db.markers + {(runId, stage)}), Ok(()))
  }

  function SettleRow(row: Row, unused: Option<int>, now: real): Row {
    if Terminal(row.state) then row
    else
      var settled := if unused.None? || unused.value < 0 || unused.value > row.held then row.held else row.held - unused.value;
      row.(state := Settled, held := 0, settled := settled, updatedAt := now)
  }

  function Settle(db: Db, runId: string, unused: Option<int>, now: real): (Db, Result<Row, BudgetError>) {
    var i := FindRun(db.runs, runId);
    if i.None? then (db, Err(UnknownRun))
    else
      var row := SettleRow(db.runs[i.value], unused, now);
      (db.(runs := db.runs[i.value := row]), Ok(row))
  }

  function ReleaseRow(row: Row, now: real): Row {
    row.(state := Released, held := 0, updatedAt := now)
  }

  function ConsumeRow(row: Row, now: real): Row {
    row.(state := ConsumedUnknown, settled := row.held, held := 0, updatedAt := now)
  }

  function ReleasePreDispatch(db: Db, runId: string, now: real): (Db, Result<Row, BudgetError>) {
    var i := FindRun(db.runs, runId);
    if i.None? then (db, Err(UnknownRun))
    else if HasMarker(db.markers, runId) then (db, Err(AlreadyMarked))
    else if db.runs[i.value].state != Reserved then (db, Err(NotReserved))
    else
      var row := ReleaseRow(db.runs[i.value], now);
      (db.(runs := db.runs[i.value := row]), Ok(row))
  }

  predicate StaleUnmarked(row: Row, markers: Markers, before: real) {
    row.state == Reserved && row.updatedAt < before && !HasMarker(markers, row.runId)
  }

  predicate StaleMarked(row: Row, markers: Markers, before: real) {
    (row.state == Reserved || row.state == Dispatched) && row.updatedAt < before && HasMarker(markers, row.runId)
  }

  function RecoverRow(row: Row, markers: Markers, before: real, now: real): Row {
    if StaleUnmarked(row, markers, before) then ReleaseRow(row, now)
    else if StaleMarked(row, markers, before) then ConsumeRow(row, now)
    else row
  }

  function RecoverExpired(db: Db, before: real, now: real): Db {
    db.(runs := seq(|db.runs|, i requires 0 <= i < |db.runs| => RecoverRow(db.runs[i], db.markers, before, now)))
  }

  /** How many rows satisfy a test: the two numbers that recovery reports. */
  function CountUnmarked(runs: seq<Row>, markers: Markers, before: real): nat {
    if runs == [] then 0
    else
      var n := |runs| - 1;
      CountUnmarked(runs[..n], markers, before) + if StaleUnmarked(runs[n], markers, before) then 1 else 0
  }

  function CountMarked(runs: seq<Row>, markers: Markers, before: real): nat {
    if runs == [] then 0
    else
      var n := |runs| - 1;
      CountMarked(runs[..n], markers, before) + if StaleMarked(runs[n], markers, before) then 1 else 0
  }

  // ---- runs of the ledger ----

  /** One transaction by any client. */
  datatype Op =
    | OpReserve(request: Request, now: real)
    | OpMark(runId: string, stage: string, now: real)
    | OpSettle(runId: string, unused: Option<int>, now: real)
    | OpRelease(runId: string, now: real)
    | OpRecover(before: real, now: real)

  function Step(limit: int, digest: string -> string, db: Db, op: Op): Db {
    match op
    case OpReserve(r, now) => Reserve(limit, digest, db, r, now).0
    case OpMark(runId, stage, now) => MarkDispatch(db, runId, stage, now).0
    case OpSettle(runId, unused, now) => Settle(db, runId, unused, now).0
    case OpRelease(runId, now) => ReleasePreDispatch(db, runId, now).0
    case OpRecover(before, now) => RecoverExpired(db, before, now)
  }

  function Run(limit: int, digest: string -> string, db: Db, ops: seq<Op>): Db
    decreases |ops|
  {
    if ops == [] then db else Run(limit, digest, Step(limit, digest, db, ops[0]), ops[1..])
  }

  // ---- invariant ----

  ghost predicate RowOk(row: Row, markers: Markers) {
    && 0 <= row.held && 0 <= row.settled && row.held + row.settled <= row.policyCap
    && (row.state == Reserved ==> row.held > 0 && row.settled == 0 && !HasMarker(markers, row.runId))
    && (row.state == Dispatched ==> row.held > 0 && row.settled == 0 && HasMarker(markers, row.runId))
    && (Terminal(row.state) ==> row.held == 0)
    && (row.state == Released ==> row.settled == 0)
    && (row.state == ConsumedUnknown ==> HasMarker(markers, row.runId))
  }

  ghost predicate Unique(runs: seq<Row>) {
    forall i, j :: 0 <= i < j < |runs| ==> runs[i].runId != runs[j].runId && runs[i].keyDigest != runs[j].keyDigest
  }

  ghost predicate Inv(limit: int, db: Db) {
    && Unique(db.runs)
    && (forall i :: 0 <= i < |db.runs| ==> RowOk(db.runs[i], db.markers))
    && (forall m :: m in db.markers ==> FindRun(db.runs, m.0).Some?)
    && (forall day :: Used(db.runs, day) <= limit)
  }

  /** How one row may change: its identity is fixed, its money only shrinks, an open row keeps its
      hold, a terminal row is frozen, and a dispatched one never goes back. */
  ghost predicate RowEvolves(a: Row, b: Row) {
    && (a.runId, a.keyDigest, a.fingerprint, a.day, a.policyCap) == (b.runId, b.keyDigest, b.fingerprint, b.day, b.policyCap)
    && 0 <= b.held + b.settled <= a.held + a.settled
    && (Terminal(a.state) ==> b == a)
    && (!Terminal(b.state) ==> b.held == a.held)
    && (a.state == Dispatched ==> b.state != Reserved && b.state != Released)
  }

  ghost predicate Evolves(a: Db, b: Db) {
    && |a.runs| <= |b.runs| && a.markers <= b.markers
    && (forall i :: 0 <= i < |a.runs| ==> RowEvolves(a.runs[i], b.runs[i]))
  }

  lemma {:induction false} UsedShrinks(a: seq<Row>, b: seq<Row>, day: string)
    requires |a| == |b| && forall i :: 0 <= i < |a| ==> RowEvolves(a[i], b[i])
    requires forall i :: 0 <= i < |a| ==> a[i].state == Released ==> a[i].held + a[i].settled == 0
    ensures Used(b, day) <= Used(a, day)
  {
    if a != [] {
      var n := |a| - 1;
      UsedShrinks(a[..n], b[..n], day);
      assert RowEvolves(a[n], b[n]);
    }
  }

  lemma SameRunsFound(a: seq<Row>, b: seq<Row>, runId: string)
    requires |a| <= |b| && forall i :: 0 <= i < |a| ==> RowEvolves(a[i], b[i])
    requires FindRun(a, runId).Some?
    ensures FindRun(b, runId).Some?
  {
    var i := FindRun(a, runId).value;
    assert b[i].runId == runId;
  }

  /** A step that adds no row, evolves every row, and keeps every row in order with the markers
      keeps the invariant. */
  lemma EvolvingKeepsInv(limit: int, a: Db, b: Db)
    requires Inv(limit, a) && Evolves(a, b) && |a.runs| == |b.runs|
    requires forall i :: 0 <= i < |b.runs| ==> RowOk(b.runs[i], b.markers)
    requires forall m :: m in b.markers ==> m in a.markers || FindRun(a.runs, m.0).Some?
    ensures Inv(limit, b)
  {
    hide RowOk;
    forall day
      ensures Used(b.runs, day) <= limit
    {
      ReleasedHoldNothing(limit, a);
      UsedShrinks(a.runs, b.runs, day);
    }
    forall m | m in b.markers
      ensures FindRun(b.runs, m.0).Some?
    {
      SameRunsFound(a.runs, b.runs, m.0);
    }
    forall i, j | 0 <= i < j < |b.runs|
      ensures b.runs[i].runId != b.runs[j].runId && b.runs[i].keyDigest != b.runs[j].keyDigest
    {
      assert RowEvolves(a.runs[i], b.runs[i]) && RowEvolves(a.runs[j], b.runs[j]);
    }
  }

  lemma ReleasedHoldNothing(limit: int, db: Db)
    requires Inv(limit, db)
    ensures forall i :: 0 <= i < |db.runs| ==> db.runs[i].state == Released ==> db.runs[i].held + db.runs[i].settled == 0
  {
    assert forall i :: 0 <= i < |db.runs| ==> RowOk(db.runs[i], db.markers);
  }

  /** The special case that changes one row and the markers of that row's run. */
  lemma ReplacingKeepsInv(limit: int, db: Db, i: nat, row: Row, markers: Markers)
    requires Inv(limit, db) && i < |db.runs| && RowEvolves(db.runs[i], row) && RowOk(row, markers)
    requires db.markers <= markers
    requires forall m :: m in markers && m !in db.markers ==> m.0 == row.runId
    ensures Inv(limit, Db(db.runs[i := row], markers)) && Evolves(db, Db(db.runs[i := row], markers))
  {
    hide Used;
    var after := Db(db.runs[i := row], markers);
    forall j | 0 <= j < |db.runs|
      ensures RowOk(after.runs[j], markers) && RowEvolves(db.runs[j], after.runs[j])
    {
      assert RowOk(db.runs[j], db.markers);
      assert RowEvolves(db.runs[j], db.runs[j]);
      if j != i {
        assert db.runs[j].runId != db.runs[i].runId;
        OtherMarkers(db.markers, markers, row.runId, db.runs[j].runId);
      }
    }
    forall m | m in markers && m !in db.markers
      ensures FindRun(db.runs, m.0).Some?
    {
      assert db.runs[i].runId == m.0;
    }
    EvolvingKeepsInv(limit, db, after);
  }

  lemma OtherMarkers(a: Markers, b: Markers, runId: string, other: string)
    requires a <= b && other != runId && forall m :: m in b && m !in a ==> m.0 == runId
    ensures HasMarker(a, other) <==> HasMarker(b, other)
  {
    if HasMarker(a, other) {
      var m :| m in a && m.0 == other;
      assert m in b;
    }
  }

  lemma ReserveKeepsInv(limit: int, digest: string -> string, db: Db, r: Request, now: real)
    requires Inv(limit, db)
    ensures Inv(limit, Reserve(limit, digest, db, r, now).0) && Evolves(db, Reserve(limit, digest, db, r, now).0)
  {
    var (after, res) := Reserve(limit, digest, db, r, now);
    forall i | 0 <= i < |db.runs|
      ensures RowEvolves(db.runs[i], db.runs[i])
    {
      assert RowOk(db.runs[i], db.markers);
    }
    if after != db {
      AddingKeepsInv(limit, db, res.value);
    }
  }

  lemma NewRowOk(limit: int, db: Db, row: Row)
    requires Inv(limit, db) && FindRun(db.runs, row.runId).None?
    requires row.state == Reserved && 0 < row.held <= row.policyCap && row.settled == 0
    ensures RowOk(row, db.markers)
  {
  }

  lemma AddedUsed(runs: seq<Row>, row: Row, day: string)
    ensures Used(runs + [row], day) == Used(runs, day) + Charged(row, day)
  {
    assert (runs + [row])[..|runs|] == runs;
  }

  lemma NewRowUnique(runs: seq<Row>, row: Row)
    requires Unique(runs) && FindRun(runs, row.runId).None? && FindKey(runs, row.keyDigest).None?
    ensures Unique(runs + [row])
  {
  }

  lemma AddingKeepsInv(limit: int, db: Db, row: Row)
    requires Inv(limit, db) && FindRun(db.runs, row.runId).None? && FindKey(db.runs, row.keyDigest).None?
    requires row.state == Reserved && 0 < row.held <= row.policyCap && row.settled == 0
    requires Used(db.runs, row.day) + row.held <= limit
    ensures Inv(limit, db.(runs := db.runs + [row]))
  {
    hide Used;
    hide FindKey;
    hide RowOk;
    var runs := db.runs + [row];
    NewRowOk(limit, db, row);
    forall day
      ensures Used(runs, day) <= limit
    {
      AddedUsed(db.runs, row, day);
    }
    NewRowUnique(db.runs, row);
    forall m | m in db.markers
      ensures FindRun(runs, m.0).Some?
    {
      var i := FindRun(db.runs, m.0).value;
      assert runs[i].runId == m.0;
    }
  }

  lemma MarkKeepsInv(limit: int, db: Db, runId: string, stage: string, now: real)
    requires Inv(limit, db)
    ensures Inv(limit, MarkDispatch(db, runId, stage, now).0) && Evolves(db, MarkDispatch(db, runId, stage, now).0)
  {
    var i := FindRun(db.runs, runId);
    if i.None? {
      StandingStill(limit, db);
    } else {
      var markers := db.markers + {(runId, stage)};
      var row := db.runs[i.value];
      assert RowOk(row, db.markers);
      assert (runId, stage) in markers && HasMarker(markers, runId);
      ReplacingKeepsInv(limit, db, i.value, MarkRow(row, now), markers);
    }
  }

  lemma StandingStill(limit: int, db: Db)
    requires Inv(limit, db)
    ensures Evolves(db, db)
  {
    assert forall i :: 0 <= i < |db.runs| ==> RowOk(db.runs[i], db.markers);
  }

  lemma SettleKeepsInv(limit: int, db: Db, runId: string, unused: Option<int>, now: real)
    requires Inv(limit, db)
    ensures Inv(limit, Settle(db, runId, unused, now).0) && Evolves(db, Settle(db, runId, unused, now).0)
  {
    hide Used;
    var i := FindRun(db.runs, runId);
    if i.None? {
      StandingStill(limit, db);
    } else {
      var row := db.runs[i.value];
      assert RowOk(row, db.markers);
      ReplacingKeepsInv(limit, db, i.value, SettleRow(row, unused, now), db.markers);
    }
  }

  lemma ReleaseKeepsInv(limit: int, db: Db, runId: string, now: real)
    requires Inv(limit, db)
    ensures Inv(limit, ReleasePreDispatch(db, runId, now).0) && Evolves(db, ReleasePreDispatch(db, runId, now).0)
  {
    hide Used;
    StandingStill(limit, db);
    var i := FindRun(db.runs, runId);
    if i.Some? && !HasMarker(db.markers, runId) && db.runs[i.value].state == Reserved {
      var row := db.runs[i.value];
      assert RowOk(row, db.markers);
      ReplacingKeepsInv(limit, db, i.value, ReleaseRow(row, now), db.markers);
    }
  }

  lemma RecoverKeepsInv(limit: int, db: Db, before: real, now: real)
    requires Inv(limit, db)
    ensures Inv(limit, RecoverExpired(db, before, now)) && Evolves(db, RecoverExpired(db, before, now))
  {
    hide Used;
    var after := RecoverExpired(db, before, now);
    forall i | 0 <= i < |db.runs|
      ensures RowOk(after.runs[i], db.markers) && RowEvolves(db.runs[i], after.runs[i])
    {
      assert RowOk(db.runs[i], db.markers);
    }
    EvolvingKeepsInv(limit, db, after);
  }

  lemma StepKeepsInv(limit: int, digest: string -> string, db: Db, op: Op)
    requires Inv(limit, db)
    ensures Inv(limit, Step(limit, digest, db, op)) && Evolves(db, Step(limit, digest, db, op))
  {
    hide Inv;
    hide Evolves;
    match op
    case OpReserve(r, now) => ReserveKeepsInv(limit, digest, db, r, now);
    case OpMark(runId, stage, now) => MarkKeepsInv(limit, db, runId, stage, now);
    case OpSettle(runId, unused, now) => SettleKeepsInv(limit, db, runId, unused, now);
    case OpRelease(runId, now) => ReleaseKeepsInv(limit, db, runId, now);
    case OpRecover(before, now) => RecoverKeepsInv(limit, db, before, now);
  }
}
