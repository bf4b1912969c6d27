/** The telemetry rate limiter of the TLS proxy (orchestrator/alphaclaw_tls_proxy.py:398-428), over exact
    arithmetic. */
module TokenBucket {

  datatype Bucket = Bucket(burst: real, rate: real, tokens: real, stamp: real, suppressed: nat)

  function MinReal(a: real, b: real): real {
    if a <= b then a else b
  }

  /** What accrues over a span of time. */
  function Accrued(rate: real, span: real): real {
    span * rate
  }

  /** One call: -1 when the line is dropped, else the number of drops it reports. */
  function Take(b: Bucket, now: real): (Bucket, int) {
    var tokens := MinReal(b.burst, b.tokens + Accrued(b.rate, now - b.stamp));
    if tokens < 1.0 then (b.(tokens := tokens, stamp := now, suppressed := b.suppressed + 1), -1)
    else
      var dropped: int := b.suppressed;
      (b.(tokens := tokens - 1.0, stamp := now, suppressed := 0), dropped)
  }

  function Run(b: Bucket, times: seq<real>): (Bucket, seq<int>)
    decreases |times|
  {
    if times == [] then (b, [])
    else
      var (b1, r) := Take(b, times[0]);
      var (b2, rs) := Run(b1, times[1..]);
      (b2, [r] + rs)
  }

  ghost predicate Valid(b: Bucket) {
    0.0 <= b.tokens <= b.burst && b.rate >= 0.0
  }

  /** The clock never runs backwards. */
  ghost predicate Monotone(start: real, times: seq<real>) {
    && (forall i :: 0 <= i < |times| ==> start <= times[i])
    && (forall i, j :: 0 <= i < j < |times| ==> times[i] <= times[j])
  }

  lemma MonotoneTail(start: real, times: seq<real>)
    requires Monotone(start, times) && times != []
    ensures Monotone(times[0], times[1..]) && start <= times[0]
  {
  }

  lemma AccruedGrows(rate: real, span: real)
    requires span >= 0.0 && rate >= 0.0
    ensures Accrued(rate, span) >= 0.0
  {
  }

  lemma AccruedSplits(rate: real, lo: real, mid: real, hi: real)
    ensures Accrued(rate, hi - lo) == Accrued(rate, mid - lo) + Accrued(rate, hi - mid)
  {
  }

  function Grant(b: Bucket, now: real): nat {
    if Take(b, now).1 >= 0 then 1 else 0
  }

  lemma TakeKeepsValid(b: Bucket, now: real)
    requires Valid(b) && b.stamp <= now
    ensures Valid(Take(b, now).0)
    ensures Take(b, now).0.(tokens := b.tokens, stamp := b.stamp, suppressed := b.suppressed) == b
    ensures Take(b, now).0.stamp == now
    ensures Take(b, now).0.tokens + Grant(b, now) as real <= b.tokens + Accrued(b.rate, now - b.stamp)
    ensures Take(b, now).0.tokens + Grant(b, now) as real <= b.burst
  {
    hide Accrued;
    AccruedGrows(b.rate, now - b.stamp);
  }

  /** Lines granted to calls made in the window from lo to hi. */
  function Granted(b: Bucket, times: seq<real>, lo: real, hi: real): nat
    decreases |times|
  {
    if times == [] then 0
    else
      (if lo <= times[0] <= hi then Grant(b, times[0]) else 0) + Granted(Take(b, times[0]).0, times[1..], lo, hi)
  }

  lemma {:induction false} NoneAfterWindow(b: Bucket, times: seq<real>, lo: real, hi: real)
    requires Monotone(hi, times) && forall i :: 0 <= i < |times| ==> times[i] > hi
    ensures Granted(b, times, lo, hi) == 0
    decreases |times|
  {
    if times != [] {
      MonotoneTail(hi, times);
      assert forall i :: 0 <= i < |times[1..]| ==> times[1..][i] == times[i + 1];
      NoneAfterWindow(Take(b, times[0]).0, times[1..], lo, hi);
    }
  }

  /** Inside the window the tokens at hand and what accrues bound the grants. */
  lemma {:induction false} GrantsFromHere(b: Bucket, times: seq<real>, lo: real, hi: real)
    requires Valid(b) && Monotone(b.stamp, times) && b.stamp <= hi
    ensures Granted(b, times, lo, hi) as real <= b.tokens + Accrued(b.rate, hi - b.stamp)
    decreases |times|
  {
    hide Accrued;
    hide Take;
    hide Grant;
    AccruedGrows(b.rate, hi - b.stamp);
    if times != [] {
      var t := times[0];
      MonotoneTail(b.stamp, times);
      TakeKeepsValid(b, t);
      if t > hi {
        NoneAfterWindow(b, times, lo, hi);
      } else {
        GrantsFromHere(Take(b, t).0, times[1..], lo, hi);
        AccruedSplits(b.rate, b.stamp, t, hi);
      }
    }
  }

  lemma {:induction false} WindowAccrual(b: Bucket, times: seq<real>, lo: real, hi: real)
    requires Valid(b) && Monotone(b.stamp, times) && lo <= hi
    ensures Granted(b, times, lo, hi) as real <= b.burst + Accrued(b.rate, hi - lo)
    decreases |times|
  {
    hide Accrued;
    hide Take;
    hide Grant;
    AccruedGrows(b.rate, hi - lo);
    if times != [] {
      var t := times[0];
      MonotoneTail(b.stamp, times);
      TakeKeepsValid(b, t);
      if t > hi {
        NoneAfterWindow(b, times, lo, hi);
      } else if t < lo {
        WindowAccrual(Take(b, t).0, times[1..], lo, hi);
      } else {
        GrantsFromHere(Take(b, t).0, times[1..], lo, hi);
        AccruedGrows(b.rate, t - lo);
        AccruedSplits(b.rate, lo, t, hi);
      }
    }
  }

  lemma AccruedIs(rate: real, span: real)
    ensures Accrued(rate, span) == rate * span
  {
  }

  /** The rate limit: for every sequence of calls with a clock that never runs backwards, and every
      window of time, at most burst plus rate times the window's length lines are granted in it. */
  lemma WindowBound(b: Bucket, times: seq<real>, lo: real, hi: real)
    requires Valid(b) && Monotone(b.stamp, times) && lo <= hi
    ensures Granted(b, times, lo, hi) as real <= b.burst + b.rate * (hi - lo)
  {
    WindowAccrual(b, times, lo, hi);
    AccruedIs(b.rate, hi - lo);
  }

  /** One call, in numbers: the line is granted exactly when at least one token has accrued and the burst
      allows one; the tokens that are left are what had accrued, up to the burst, less the one taken. */
  lemma TakesExactly(b: Bucket, now: real)
    ensures
      var (after, r) := Take(b, now);
      var level := b.tokens + b.rate * (now - b.stamp);
      && (r >= 0 <==> level >= 1.0 && b.burst >= 1.0)
      && after.tokens == (if level <= b.burst then level else b.burst) - (if r >= 0 then 1.0 else 0.0)
      && after.stamp == now && after.rate == b.rate && after.burst == b.burst
      && (if r >= 0 then r == b.suppressed && after.suppressed == 0 else after.suppressed == b.suppressed + 1)
  {
    AccruedIs(b.rate, now - b.stamp);
    hide Accrued;
  }

  function Denied(results: seq<int>): nat {
    if results == [] then 0 else (if results[0] < 0 then 1 else 0) + Denied(results[1..])
  }

  function Reported(results: seq<int>): int {
    if results == [] then 0 else (if results[0] >= 0 then results[0] else 0) + Reported(results[1..])
  }

  /** No drop is lost or counted twice: over every run, the drops pending at the start plus the denied
      calls equal the reported drops plus those still pending; and the bucket stays within bounds. */
  lemma {:induction false} DropsAreConserved(b: Bucket, times: seq<real>)
    requires Valid(b) && Monotone(b.stamp, times)
    ensures
      var (end, results) := Run(b, times);
      && b.suppressed + Denied(results) == Reported(results) + end.suppressed
      && Valid(end) && end.burst == b.burst && end.rate == b.rate
    decreases |times|
  {
    if times != [] {
      MonotoneTail(b.stamp, times);
      TakeKeepsValid(b, times[0]);
      DropsAreConserved(Take(b, times[0]).0, times[1..]);
      var (end, results) := Run(b, times);
      assert results[1..] == Run(Take(b, times[0]).0, times[1..]).1;
    }
  }

  /** A line is never starved: once 1/rate has passed since the last call, it is granted. */
  lemma WaitingIsRewarded(b: Bucket, now: real)
    requires Valid(b) && b.rate > 0.0 && b.burst >= 1.0 && Accrued(b.rate, now - b.stamp) >= 1.0
    ensures Take(b, now).1 >= 0
  {
    hide Accrued;
  }

  /** The limiter object. */
  class ConnectionTelemetry {
    const burst: real
    const rate: real
    var tokens: real
    var stamp: real
    var suppressed: nat

    constructor (burst: nat, perSecond: real, now: real)
      requires perSecond >= 0.0
      ensures State() == Bucket(burst as real, perSecond, burst as real, now, 0) && Valid(State())
    {
      this.burst, rate := burst as real, perSecond;
      tokens, stamp, suppressed := burst as real, now, 0;
    }

    ghost function State(): Bucket
      reads this
    {
      Bucket(burst, rate, tokens, stamp, suppressed)
    }

    method TakeToken(now: real) returns (dropped: int)
      requires Valid(State()) && stamp <= now
      modifies this
      ensures (State(), dropped) == Take(old(State()), now) && Valid(State())
    {
      hide Accrued;
      TakeKeepsValid(State(), now);
      tokens := MinReal(burst, tokens + Accrued(rate, now - stamp));
      stamp := now;
      if tokens < 1.0 {
        suppressed := suppressed + 1;
        return -1;
      }
      tokens := tokens - 1.0;
      dropped, suppressed := suppressed, 0;
    }
  }
}
