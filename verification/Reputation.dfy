/** Per-witness reputation scores (orchestrator/reputation.py). */
module Reputation {

  const EQUIVOCATION_WEIGHT := 5.0

  type Scores = map<string, real>

  function RecordOutcome(scores: Scores, observerId: string, correct: bool, weight: real): Scores {
    var score := if observerId in scores then scores[observerId] else 0.0;
    scores[observerId := if correct then score + weight else score - 5.0 * weight]
  }

  function RecordEquivocation(scores: Scores, observerId: string): Scores {
    RecordOutcome(scores, observerId, false, EQUIVOCATION_WEIGHT)
  }

  function Weight(scores: Scores, neutral: real, observerId: string): real {
    if observerId !in scores then neutral
    else if scores[observerId] / 10.0 > 0.0 then scores[observerId] / 10.0
    else 0.0
  }

  /** Every score on record is negative: the state of a ledger that only equivocations write to. */
  ghost predicate OnlyPenalties(scores: Scores) {
    forall id :: id in scores ==> scores[id] < 0.0
  }

  /** In a ledger fed by equivocations only, a caught witness weighs nothing for ever and everyone
      else keeps the neutral weight. */
  lemma PenaltiesAreFinal(scores: Scores, observerId: string, neutral: real, other: string)
    requires OnlyPenalties(scores)
    ensures OnlyPenalties(RecordEquivocation(scores, observerId))
    ensures RecordEquivocation(scores, observerId).Keys == scores.Keys + {observerId}
    ensures Weight(RecordEquivocation(scores, observerId), neutral, other)
         == if other == observerId || other in scores then 0.0 else neutral
  {
  }

  // ---- the weight after a history of outcomes ----

  datatype Report = Report(observerId: string, correct: bool, weight: real)

  function RecordReports(reports: seq<Report>): Scores {
    if reports == [] then map[]
    else
      var o := reports[|reports| - 1];
      RecordOutcome(RecordReports(reports[..|reports| - 1]), o.observerId, o.correct, o.weight)
  }

  /** The summed weights of an observer's right, or wrong, outcomes. */
  function Earned(reports: seq<Report>, observerId: string, correct: bool): real {
    if reports == [] then 0.0
    else
      var o := reports[|reports| - 1];
      Earned(reports[..|reports| - 1], observerId, correct)
      + if o.observerId == observerId && o.correct == correct then o.weight else 0.0
  }

  ghost predicate HasReport(reports: seq<Report>, observerId: string) {
    exists i :: 0 <= i < |reports| && reports[i].observerId == observerId
  }

  lemma HasReportStep(reports: seq<Report>, observerId: string)
    requires reports != []
    ensures HasReport(reports, observerId) <==>
      HasReport(reports[..|reports| - 1], observerId) || reports[|reports| - 1].observerId == observerId
  {
    var n := |reports| - 1;
    assert forall i :: 0 <= i < n ==> reports[..n][i] == reports[i];
    if HasReport(reports, observerId) && reports[n].observerId != observerId {
      var i :| 0 <= i < |reports| && reports[i].observerId == observerId;
      assert reports[..n][i].observerId == observerId;
    }
    if HasReport(reports[..n], observerId) {
      var i :| 0 <= i < n && reports[..n][i].observerId == observerId;
      assert reports[i].observerId == observerId;
    }
  }

  lemma {:induction false} ScoreIsEarned(reports: seq<Report>, observerId: string)
    ensures observerId in RecordReports(reports) <==> HasReport(reports, observerId)
    ensures observerId in RecordReports(reports) ==>
              RecordReports(reports)[observerId] == Earned(reports, observerId, true) - 5.0 * Earned(reports, observerId, false)
    ensures !HasReport(reports, observerId) ==>
              Earned(reports, observerId, true) == 0.0 && Earned(reports, observerId, false) == 0.0
  {
    if reports != [] {
      ScoreIsEarned(reports[..|reports| - 1], observerId);
      HasReportStep(reports, observerId);
    }
  }

  /** Reputation over any history: an observer without outcomes has the neutral weight, and any other one a
      tenth of what its right outcomes weigh less five times what its wrong ones weigh, but never less
      than nothing. */
  lemma WeightIsEarned(reports: seq<Report>, neutral: real, observerId: string)
    ensures
      var balance := Earned(reports, observerId, true) - 5.0 * Earned(reports, observerId, false);
      Weight(RecordReports(reports), neutral, observerId) ==
        if !HasReport(reports, observerId) then neutral else if balance > 0.0 then balance / 10.0 else 0.0
  {
    ScoreIsEarned(reports, observerId);
  }

  /** The ledger object. */
  class ReputationLedger {
    const neutralDefault: real
    var scores: Scores

    constructor (neutral: real)
      ensures neutralDefault == neutral && scores == map[]
    {
      neutralDefault := neutral;
      scores := map[];
    }

    method RecordOutcomeFor(observerId: string, correct: bool, weight: real)
      modifies this
      ensures scores == RecordOutcome(old(scores), observerId, correct, weight)
      ensures scores.Keys == old(scores).Keys + {observerId}
      ensures forall id :: id != observerId ==>
                Weight(scores, neutralDefault, id) == Weight(old(scores), neutralDefault, id)
      ensures observerId in old(scores) && weight >= 0.0 ==>
                if correct then Weight(scores, neutralDefault, observerId) >= Weight(old(scores), neutralDefault, observerId)
                else Weight(scores, neutralDefault, observerId) <= Weight(old(scores), neutralDefault, observerId)
    {
      var score := if observerId in scores then scores[observerId] else 0.0;
      if correct {
        score := score + weight;
      } else {
        score := score - 5.0 * weight;
      }
      scores := scores[observerId := score];
    }

    method RecordEquivocationBy(observerId: string)
      modifies this
      ensures scores == RecordEquivocation(old(scores), observerId)
      ensures forall id :: id != observerId ==>
                Weight(scores, neutralDefault, id) == Weight(old(scores), neutralDefault, id)
      ensures Weight(scores, neutralDefault, observerId) == 0.0 <==> observerId !in old(scores) || old(scores)[observerId] <= 25.0
    {
      RecordOutcomeFor(observerId, false, EQUIVOCATION_WEIGHT);
    }
  }
}
