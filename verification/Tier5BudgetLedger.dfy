/** The ledger object (orchestrator/tier5_budget.py): its transactions as in-place updates of the two
    tables, proved against the steps of Tier5Budget. */
module Tier5BudgetLedger {
  import opened Prelude
  import opened Tier5Budget

  class Ledger {
    const dailyLimit: int
    const digest: string -> string
    var runs: seq<Row>
    var markers: Markers

    ghost function Tables(): Db
      reads this
    {
      Db(runs, markers)
    }

    ghost predicate Valid()
      reads this
    {
      dailyLimit > 0 && Inv(dailyLimit, Tables())
    }

    constructor (dailyLimit: int, digest: string -> string)
      requires dailyLimit > 0
      ensures Valid() && this.dailyLimit == dailyLimit && this.digest == digest && Tables() == Db([], {})
    {
      this.dailyLimit, this.digest := dailyLimit, digest;
      runs, markers := [], {};
    }

    /** SELECT by primary key. */
    method SelectRun(runId: string) returns (found: Option<nat>)
      ensures found == FindRun(runs, runId)
    {
      found := None;
      for i := 0 to |runs|
        invariant found == FindRun(runs[..i], runId)
      {
        assert runs[..i + 1][..i] == runs[..i];
        if found.None? && runs[i].runId == runId {
          found := Some(i);
        }
      }
      assert runs[..|runs|] == runs;
    }

    method SelectKey(keyDigest: string) returns (found: Option<nat>)
      ensures found == FindKey(runs, keyDigest)
    {
      found := None;
      for i := 0 to |runs|
        invariant found == FindKey(runs[..i], keyDigest)
      {
        assert runs[..i + 1][..i] == runs[..i];
        if found.None? && runs[i].keyDigest == keyDigest {
          found := Some(i);
        }
      }
      assert runs[..|runs|] == runs;
    }

    /** SELECT SUM over the charged rows of a day. */
    method SumUsed(day: string) returns (used: int)
      ensures used == Used(runs, day)
    {
      used := 0;
      for i := 0 to |runs|
        invariant used == Used(runs[..i], day)
      {
        assert runs[..i + 1][..i] == runs[..i];
        if runs[i].day == day && runs[i].state != Released {
          used := used + (runs[i].held + runs[i].settled);
        }
      }
      assert runs[..|runs|] == runs;
    }

    method ReserveFunds(r: Request, now: real) returns (res: Result<Row, BudgetError>)
      requires Valid()
      modifies this
      ensures Valid() && Evolves(old(Tables()), Tables())
      ensures (Tables(), res) == Reserve(dailyLimit, digest, old(Tables()), r, now)
    {
      hide Used;
      hide Inv;
      hide Evolves;
      ReserveKeepsInv(dailyLimit, digest, Tables(), r, now);
      if BadRequest(r) {
        return Err(InvalidArgument);
      }
      var keyDigest := digest(r.key);
      var existing := SelectKey(keyDigest);
      if existing.Some? {
        if runs[existing.value].fingerprint != r.fingerprint {
          return Err(Conflict);
        }
        return Ok(runs[existing.value]);
      }
      var used := SumUsed(r.day);
      var remaining := dailyLimit - used;
      var policyCap := remaining - MICROUSD_PER_USD;
      if r.explicitCap.Some? {
        policyCap := r.explicitCap.value;
      }
      if policyCap > remaining {
        policyCap := remaining;
      }
      if policyCap <= 0 || r.worstCase > policyCap {
        return Err(Insufficient);
      }
      var clash := SelectRun(r.runId);
      if clash.Some? {
        return Err(DuplicateRun);
      }
      var row := Row(r.runId, keyDigest, r.fingerprint, r.day, Reserved, policyCap, r.worstCase, 0, now);
      runs := runs + [row];
      return Ok(row);
    }

    /** The marker is inserted whatever the state of the run. */
    method Mark(runId: string, stage: string, now: real) returns (res: Result<(), BudgetError>)
      requires Valid()
      modifies this
      ensures Valid() && Evolves(old(Tables()), Tables())
      ensures (Tables(), res) == MarkDispatch(old(Tables()), runId, stage, now)
    {
      hide Inv;
      hide Evolves;
      MarkKeepsInv(dailyLimit, Tables(), runId, stage, now);
      var i := SelectRun(runId);
      if i.None? {
        return Err(UnknownRun);
      }
      markers := markers + {(runId, stage)};
      if runs[i.value].state == Reserved {
        runs := runs[i.value := runs[i.value].(state := Dispatched, updatedAt := now)];
      } else {
        assert runs[i.value := runs[i.value]] == runs;
      }
      return Ok(());
    }

    method SettleRun(runId: string, unused: Option<int>, now: real) returns (res: Result<Row, BudgetError>)
      requires Valid()
      modifies this
      ensures Valid() && Evolves(old(Tables()), Tables())
      ensures (Tables(), res) == Settle(old(Tables()), runId, unused, now)
    {
      hide Inv;
      hide Evolves;
      SettleKeepsInv(dailyLimit, Tables(), runId, unused, now);
      var i := SelectRun(runId);
      if i.None? {
        return Err(UnknownRun);
      }
      var row := runs[i.value];
      if Terminal(row.state) {
        assert runs[i.value := row] == runs;
        return Ok(row);
      }
      var settled := row.held;
      if unused.Some? && 0 <= unused.value <= row.held {
        settled := row.held - unused.value;
      }
      row := row.(state := Settled, held := 0, settled := settled, updatedAt := now);
      runs := runs[i.value := row];
      return Ok(row);
    }

    method Release(runId: string, now: real) returns (res: Result<Row, BudgetError>)
      requires Valid()
      modifies this
      ensures Valid() && Evolves(old(Tables()), Tables())
      ensures (Tables(), res) == ReleasePreDispatch(old(Tables()), runId, now)
    {
      hide Inv;
      hide Evolves;
      ReleaseKeepsInv(dailyLimit, Tables(), runId, now);
      var i := SelectRun(runId);
      if i.None? {
        return Err(UnknownRun);
      }
      if exists m :: m in markers && m.0 == runId {
        return Err(AlreadyMarked);
      }
      if runs[i.value].state != Reserved {
        return Err(NotReserved);
      }
      runs := runs[i.value := runs[i.value].(state := Released, held := 0, updatedAt := now)];
      return Ok(runs[i.value]);
    }

    /** SELECT the stale rows, without and with markers. */
    method SelectStale(before: real) returns (unmarked: seq<nat>, marked: seq<nat>)
      ensures forall i :: i in unmarked <==> 0 <= i < |runs| && StaleUnmarked(runs[i], markers, before)
      ensures forall i :: i in marked <==> 0 <= i < |runs| && StaleMarked(runs[i], markers, before)
      ensures NoDup(marked)
      ensures |unmarked| == CountUnmarked(runs, markers, before) && |marked| == CountMarked(runs, markers, before)
    {
      unmarked, marked := [], [];
      for i := 0 to |runs|
        invariant forall j :: j in unmarked <==> 0 <= j < i && StaleUnmarked(runs[j], markers, before)
        invariant forall j :: j in marked <==> 0 <= j < i && StaleMarked(runs[j], markers, before)
        invariant NoDup(marked)
        invariant |unmarked| == CountUnmarked(runs[..i], markers, before)
        invariant |marked| == CountMarked(runs[..i], markers, before)
      {
        assert runs[..i + 1][..i] == runs[..i];
        if StaleUnmarked(runs[i], markers, before) {
          unmarked := unmarked + [i];
        }
        if StaleMarked(runs[i], markers, before) {
          marked := marked + [i];
        }
      }
      assert runs[..|runs|] == runs;
    }

    /** Release unmarked stale holds, consume marked stale runs, one UPDATE at a time. */
    method Recover(before: real, now: real) returns (released: nat, consumed: nat)
      requires Valid()
      modifies this
      ensures Valid() && Evolves(old(Tables()), Tables())
      ensures Tables() == RecoverExpired(old(Tables()), before, now)
      ensures released == CountUnmarked(old(runs), markers, before) && consumed == CountMarked(old(runs), markers, before)
    {
      hide Inv;
      hide Evolves;
      hide HasMarker;
      RecoverKeepsInv(dailyLimit, Tables(), before, now);
      var unmarked, marked := SelectStale(before);
      for n := 0 to |unmarked|
        invariant markers == old(markers) && |runs| == |old(runs)|
        invariant forall i :: 0 <= i < |runs| ==>
                    runs[i] == if i in unmarked[..n] then ReleaseRow(old(runs)[i], now) else old(runs)[i]
      {
        var i := unmarked[n];
        assert i in unmarked && unmarked[..n + 1] == unmarked[..n] + [i];
        runs := runs[i := runs[i].(state := Released, held := 0, updatedAt := now)];
      }
      assert unmarked[..|unmarked|] == unmarked;
      for n := 0 to |marked|
        invariant markers == old(markers) && |runs| == |old(runs)|
        invariant forall i :: 0 <= i < |runs| ==>
                    runs[i] == if i in unmarked then ReleaseRow(old(runs)[i], now)
                               else if i in marked[..n] then ConsumeRow(old(runs)[i], now) else old(runs)[i]
      {
        var i := marked[n];
        assert i in marked && marked[..n + 1] == marked[..n] + [i];
        assert i !in unmarked && i !in marked[..n];
        runs := runs[i := runs[i].(state := ConsumedUnknown, settled := runs[i].held, held := 0, updatedAt := now)];
      }
      assert marked[..|marked|] == marked;
      assert runs == RecoverExpired(old(Tables()), before, now).runs;
      return |unmarked|, |marked|;
    }
  }
}
