/** Attempts, step marks, completion, retest and corrections (backend/app/domain/execution.py). */
module Execution {
  import opened Common
  import opened Tables

  // ------------------------------------------------------------------ derivation

  predicate RequiredMark(steps: seq<StepMark>, result: StepResult) {
    exists s :: s in steps && s.text.required && s.result == result
  }

  /** derive_overall_result */
  function DeriveOverallResult(steps: seq<StepMark>): Verdict {
    if RequiredMark(steps, StepNotRun) then InProgress
    else if RequiredMark(steps, StepFailed) then Failed
    else if RequiredMark(steps, StepBlocked) then Blocked
    else if forall s :: s in steps && s.text.required ==> s.result.StepPassed? || s.result.StepSkipped? then Passed
    else InProgress
  }

  /** How bad a required mark is; the attempt is as bad as its worst one. */
  function Severity(r: StepResult): nat {
    match r
    case StepNotRun => 3
    case StepFailed => 2
    case StepBlocked => 1
    case _ => 0
  }

  function VerdictSeverity(v: Verdict): int {
    match v
    case InProgress => 3
    case Failed => 2
    case Blocked => 1
    case Passed => 0
    case _ => -1
  }

  /** The derived result is the worst required mark, and the last `IN_PROGRESS` of the
      source is never reached: it stands for an unmarked step and nothing else. */
  lemma DerivedIsWorst(steps: seq<StepMark>)
    ensures var d := DeriveOverallResult(steps);
      && VerdictSeverity(d) >= 0
      && (forall s :: s in steps && s.text.required ==> Severity(s.result) <= VerdictSeverity(d))
      && (VerdictSeverity(d) > 0 ==>
            exists s :: s in steps && s.text.required && Severity(s.result) == VerdictSeverity(d))
  {}

  // ------------------------------------------------------------------ services

  function StartAttempt(db: Db, now: Time, t: Id): Result<Db> {
    if t !in db.tests then Err(NotFound) else
    var ct := db.tests[t];
    if ct.cycleId !in db.cycles then Err(Broken) else
    var cycle := db.cycles[ct.cycleId];
    if !cycle.status.Active? && !cycle.status.Reopened? then Err(NotAllowed) else
    if ct.versionId.None? then Err(Invalid) else
    if HasOpenAttempt(db.attempts, t) then Err(NotAllowed) else
    var attempt := Attempt(t, ct.cycleId, ct.project, ct.versionId.value, cycle.context,
                           FreshMarks(ct.steps), InProgress, None, now, None, false, []);
    Ok(db.(
       attempts := db.attempts[db.nextId := attempt],
       tests := db.tests[t := ct.(retest := false)],
       nextId := db.nextId + 1))
  }

  /** The position of the step with this order_index, or |steps|. */
  function StepAt(steps: seq<StepMark>, index: nat): (i: nat)
    ensures i <= |steps|
    ensures i < |steps| ==> steps[i].text.index == index
    ensures forall j :: 0 <= j < i ==> steps[j].text.index != index
  {
    if steps == [] then 0
    else if steps[0].text.index == index then 0
    else
      var i := StepAt(steps[1..], index);
      assert forall j :: 0 < j < 1 + i ==> steps[j] == steps[1..][j - 1];
      1 + i
  }

  /** `result` is None when it is not one of the five step results. */
  function SetStepResult(db: Db, a: Id, index: nat, result: Option<StepResult>): Result<Db> {
    if a !in db.attempts then Err(NotFound) else
    var attempt := db.attempts[a];
    if attempt.testId !in db.tests then Err(NotFound) else
    if !attempt.status.InProgress? then Err(NotAllowed) else
    if result.None? then Err(Invalid) else
    var i := StepAt(attempt.steps, index);
    if i == |attempt.steps| then Err(NotFound) else
    Ok(db.(attempts := db.attempts[a := attempt.(
             steps := attempt.steps[i := attempt.steps[i].(result := result.value)])]))
  }

  function Finished(attempt: Attempt, now: Time, verdict: Verdict, overridden: bool): Attempt {
    attempt.(status := verdict, overall := Some(verdict), ended := Some(now), overridden := overridden)
  }

  function CompleteAttempt(
    db: Db, now: Time, a: Id, overrideResult: Option<Verdict>, reasonGiven: bool
  ): Result<Db> {
    if a !in db.attempts then Err(NotFound) else
    var attempt := db.attempts[a];
    if attempt.testId !in db.tests then Err(NotFound) else
    if !attempt.status.InProgress? then Err(NotAllowed) else
    var derived := DeriveOverallResult(attempt.steps);
    if overrideResult.Some? && !Terminal(overrideResult.value) then Err(Invalid) else
    if overrideResult.Some? && !reasonGiven then Err(Invalid) else
    if overrideResult.None? && derived == InProgress then Err(Invalid) else
    var final := if overrideResult.Some? then overrideResult.value else derived;
    Ok(db.(attempts := db.attempts[a := Finished(attempt, now, final,
                                                 attempt.overridden || overrideResult.Some?)]))
  }

  function AbortAttempt(db: Db, now: Time, a: Id, reasonGiven: bool): Result<Db> {
    if a !in db.attempts then Err(NotFound) else
    var attempt := db.attempts[a];
    if attempt.testId !in db.tests then Err(NotFound) else
    if !attempt.status.InProgress? then Err(NotAllowed) else
    if !reasonGiven then Err(Invalid) else
    Ok(db.(attempts := db.attempts[a := Finished(attempt, now, Aborted, attempt.overridden)]))
  }

  function RequestRetest(db: Db, t: Id): Result<Db> {
    if t !in db.tests then Err(NotFound) else
    if !HasFinishedAttempt(db.attempts, t) then Err(NotAllowed) else
    Ok(db.(tests := db.tests[t := db.tests[t].(retest := true)]))
  }

  function CorrectAttempt(
    db: Db, now: Time, a: Id, field: string, newValue: Verdict, reasonGiven: bool
  ): Result<Db> {
    if a !in db.attempts then Err(NotFound) else
    var attempt := db.attempts[a];
    if !Terminal(attempt.status) then Err(NotAllowed) else
    if field != "overall_result" then Err(Invalid) else
    if !Terminal(newValue) then Err(Invalid) else
    if !reasonGiven then Err(Invalid) else
    Ok(db.(attempts := db.attempts[a := attempt.(
             corrections := attempt.corrections + [Correction(attempt.overall, newValue, now)])]))
  }
}
