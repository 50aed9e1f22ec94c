/** A run told from its calls: which of them went through, and which rows a call may touch. */
module Ledger {
  import opened Common
  import opened Tables
  import opened Evidence
  import opened Preservation
  import opened Runs
  import TC = TestCases
  import PL = Planning
  import EX = Execution

  /** A history from the empty database of these projects. */
  datatype Trail = Trail(projects: set<Id>, calls: History) {

    /** The tables after the first n calls. */
    ghost function At(n: nat): Db
      requires n <= |calls|
    {
      Reached(projects, calls[..n])
    }

    ghost function End(): Db {
      Reached(projects, calls)
    }

    /** The i-th call was not refused. */
    ghost predicate Went(i: nat) {
      i < |calls| && Perform(At(i), calls[i].0, calls[i].1).Ok?
    }

    ghost predicate Did(i: nat, call: Call) {
      Went(i) && calls[i].1 == call
    }
  }

  lemma EndIsLast(run: Trail)
    ensures run.At(|run.calls|) == run.End()
  {
    assert run.calls[..|run.calls|] == run.calls;
  }

  lemma StartsEmpty(run: Trail)
    ensures run.At(0) == EmptyDb(run.projects)
  {}

  lemma NextAt(run: Trail, n: nat)
    requires n < |run.calls|
    ensures run.At(n + 1) == Apply(run.At(n), run.calls[n].0, run.calls[n].1)
    ensures Inv(run.At(n)) && Inv(run.At(n + 1)) && Grows(run.At(n), run.At(n + 1))
  {
    hide Inv, Grows, Apply;
    assert run.calls[..n + 1][..n] == run.calls[..n];
    ReachedInv(run.projects, run.calls[..n]);
    ApplyKeeps(run.At(n), run.calls[n].0, run.calls[n].1);
  }

  /** A call that goes through gives the next tables, one that is refused gives the same. */
  lemma NextBy(run: Trail, n: nat)
    requires n < |run.calls|
    ensures run.Went(n) ==> Perform(run.At(n), run.calls[n].0, run.calls[n].1) == Ok(run.At(n + 1))
    ensures !run.Went(n) ==> run.At(n + 1) == run.At(n)
  {
    hide Perform, Inv, Grows;
    NextAt(run, n);
  }

  lemma AtInv(run: Trail, n: nat)
    requires n <= |run.calls|
    ensures Inv(run.At(n))
  {
    hide Inv;
    ReachedInv(run.projects, run.calls[..n]);
  }

  lemma {:induction false} AtGrows(run: Trail, m: nat, n: nat)
    requires m <= n <= |run.calls|
    ensures Grows(run.At(m), run.At(n))
  {
    hide Grows, Inv;
    assert run.calls[..m] + run.calls[m..n] == run.calls[..n];
    ReachedGrows(run.projects, run.calls[..m], run.calls[m..n]);
  }

  // ------------------------------------------------------------------ which rows a call may touch

  /** Each call is the business of one part of the tables. */
  ghost predicate OnlyItsTables(db: Db, call: Call, next: Db) {
    && (RepositoryCall(call) ==> next == db.(cases := next.cases, versions := next.versions, nextId := next.nextId))
    && (PlanningCall(call) || call.AddCycleTests? ==>
          next == db.(cycles := next.cycles, tests := next.tests, nextId := next.nextId))
    && (ExecutionCall(call) ==> next == db.(tests := next.tests, attempts := next.attempts, nextId := next.nextId))
    && (call.CreateRelease? || call.CreatePlan? || call.DeletePlan? ==>
          next == db.(releases := next.releases, plans := next.plans, nextId := next.nextId))
  }

  lemma OtherTablesStay(db: Db, now: Time, call: Call, next: Db)
    requires Inv(db) && Perform(db, now, call) == Ok(next)
    ensures OnlyItsTables(db, call, next)
  {
    hide RepositoryOk, HistoriesOk, Perform, VersionsKept, OldContentKept, CasesKept, CyclesOk, TestsOk, LiveOnce,
      EvidenceKept, RetestsInherited, CyclesKept, TestsKept, AttemptsOk, OneOpen, RetestsOk, OnlyFlags, AttemptsKept,
      Below;
    if RepositoryCall(call) {
      RepositoryCallChanges(db, now, call, next);
    } else if PlanningCall(call) {
      PlanningCallChanges(db, now, call, next);
    } else if ExecutionCall(call) {
      ExecutionCallChanges(db, now, call, next);
    } else if call.AddCycleTests? {
      AddedOnlyTests(db, now, call, next);
    } else {
      ReleaseOrPlanOnly(db, now, call, next);
    }
  }

  lemma AddedOnlyTests(db: Db, now: Time, call: Call, next: Db)
    requires RepositoryOk(db.cases, db.versions) && Below(db.tests, db.nextId)
    requires call.AddCycleTests? && Perform(db, now, call) == Ok(next)
    ensures next == db.(tests := next.tests, nextId := next.nextId)
  {
    hide PL.AddEach, AddedRow;
    AddEachExactly(db, call.cycle, call.caseIds);
  }

  lemma ReleaseOrPlanOnly(db: Db, now: Time, call: Call, next: Db)
    requires call.CreateRelease? || call.CreatePlan? || call.DeletePlan?
    requires Perform(db, now, call) == Ok(next)
    ensures next == db.(releases := next.releases, plans := next.plans, nextId := next.nextId)
  {}

  /** The test rows a call writes to. */
  ghost predicate TouchesTest(db: Db, call: Call, t: Id)
    requires t in db.tests
  {
    match call
    case TransitionCycle(c, target, _, _) => target.Active? && PL.LiveIn(db.tests[t], c)
    case RemoveCycleTest(u) => u == t
    case RefreshCycleTestVersion(u) => u == t
    case StartAttempt(u) => u == t
    case RequestRetest(u) => u == t
    case _ => false
  }

  /** The tests that were there, and what is true of new ones. */
  ghost predicate TestsTouched(db: Db, call: Call, next: Db) {
    && (forall t :: t in db.tests ==> t in next.tests && (!TouchesTest(db, call, t) ==> next.tests[t] == db.tests[t]))
    && (forall t :: t in next.tests && t !in db.tests ==>
          && (call.CloneCycle? || call.AddCycleTests?) && db.nextId <= t < next.nextId
          && !next.tests[t].removed && !next.tests[t].retest
          && (call.AddCycleTests? ==> next.tests[t].cycleId == call.cycle)
          && (call.CloneCycle? ==> next.tests[t].cycleId == db.nextId && next.tests[t].versionId.None?))
  }

  lemma TestsAreTouched(db: Db, now: Time, call: Call, next: Db)
    requires Inv(db) && Perform(db, now, call) == Ok(next)
    ensures TestsTouched(db, call, next)
  {
    hide TestsTouched, Perform, Inv;
    if OnTests(call) {
      TestCallTouches(db, now, call, next);
    } else {
      SameTests(db, now, call, next);
    }
  }

  lemma TestCallTouches(db: Db, now: Time, call: Call, next: Db)
    requires Inv(db) && Perform(db, now, call) == Ok(next) && OnTests(call)
    ensures TestsTouched(db, call, next)
  {
    hide TestsTouched, PL.AddCycleTests, PL.CloneCycle, PL.TransitionCycle, PL.RemoveCycleTest, PL.LiveTests, Enumerates,
      PL.RefreshCycleTestVersion, EX.StartAttempt, EX.RequestRetest, LiveOnce, AttemptsOk, OneOpen, HistoriesOk,
      CyclesOk, RetestsOk, TestsOk, RepositoryOk, Below;
    match call
    case AddCycleTests(c, caseIds) => AddTouches(db, c, caseIds, next);
    case CloneCycle(c, env, build, rows) => CloneTouches(db, c, env, build, rows, next);
    case TransitionCycle(c, target, expected, reason) => TransitionTouches(db, c, target, expected, reason, next);
    case RemoveCycleTest(t) => RemoveTouches(db, t, next);
    case RefreshCycleTestVersion(t) => RefreshTouches(db, t, next);
    case StartAttempt(t) => StartTouches(db, now, t, next);
    case RequestRetest(t) => RetestTouches(db, t, next);
  }

  lemma AddTouches(db: Db, c: Id, caseIds: seq<Id>, next: Db)
    requires RepositoryOk(db.cases, db.versions) && Below(db.tests, db.nextId)
    requires PL.AddCycleTests(db, c, caseIds) == Ok(next)
    ensures TestsTouched(db, Call.AddCycleTests(c, caseIds), next)
  {
    hide PL.AddEach, PL.Snapshot;
    AddEachExactly(db, c, caseIds);
    SnapshotKeeps(db);
  }

  lemma SnapshotKeeps(db: Db)
    ensures forall ct :: var s := PL.Snapshot(db, ct); s == ct.(versionId := s.versionId, steps := s.steps)
  {}

  lemma CloneTouches(db: Db, c: Id, env: string, build: string, rows: seq<Id>, next: Db)
    requires Enumerates(rows, PL.LiveTests(db, c)) && PL.CloneCycle(db, c, env, build, rows) == Ok(next)
    requires TestsOk(db.cases, db.versions, db.cycles, db.tests) && LiveOnce(db.tests) && Below(db.tests, db.nextId)
    ensures TestsTouched(db, Call.CloneCycle(c, env, build, rows), next)
  {
    hide Strip, LiveOnce, TestsOk, PL.ClonedTests;
    ClonedTestsAreNew(db, c, rows, next);
    hide Enumerates, PL.CloneCycle;
  }

  lemma TransitionTouches(db: Db, c: Id, target: CycleStatus, expected: nat, reason: bool, next: Db)
    requires PL.TransitionCycle(db, c, target, expected, reason) == Ok(next)
    ensures TestsTouched(db, Call.TransitionCycle(c, target, expected, reason), next)
  {
    hide PL.AllCanSnapshot, PL.AnySnapshotBroken, PL.CycleHasOpenAttempt, PL.LiveTests, PL.Snapshot;
  }

  lemma RemoveTouches(db: Db, t: Id, next: Db)
    requires PL.RemoveCycleTest(db, t) == Ok(next)
    ensures TestsTouched(db, Call.RemoveCycleTest(t), next)
  {
    hide HasOpenAttempt;
  }

  lemma RefreshTouches(db: Db, t: Id, next: Db)
    requires PL.RefreshCycleTestVersion(db, t) == Ok(next)
    ensures TestsTouched(db, Call.RefreshCycleTestVersion(t), next)
  {
    hide HasAttempt, PL.Snapshot;
  }

  lemma StartTouches(db: Db, now: Time, t: Id, next: Db)
    requires EX.StartAttempt(db, now, t) == Ok(next)
    ensures TestsTouched(db, Call.StartAttempt(t), next)
  {
    hide HasOpenAttempt, FreshMarks;
  }

  lemma RetestTouches(db: Db, t: Id, next: Db)
    requires EX.RequestRetest(db, t) == Ok(next)
    ensures TestsTouched(db, Call.RequestRetest(t), next)
  {
    hide HasFinishedAttempt;
  }

  predicate OnTests(call: Call) {
    || call.AddCycleTests? || call.CloneCycle? || call.TransitionCycle? || call.RemoveCycleTest?
    || call.RefreshCycleTestVersion? || call.StartAttempt? || call.RequestRetest?
  }

  lemma SameTests(db: Db, now: Time, call: Call, next: Db)
    requires Inv(db) && Perform(db, now, call) == Ok(next) && !OnTests(call)
    ensures next.tests == db.tests && TestsTouched(db, call, next)
  {
    hide Inv, TestsTouched, Perform;
    if RepositoryCall(call) {
      OtherTablesStay(db, now, call, next);
    } else if ExecutionCall(call) {
      AttemptCallKeepsTests(db, now, call, next);
    } else {
      CreationKeepsTests(db, now, call, next);
    }
    UntouchedTests(db, call, next);
  }

  lemma UntouchedTests(db: Db, call: Call, next: Db)
    requires next.tests == db.tests
    ensures TestsTouched(db, call, next)
  {}

  lemma AttemptCallKeepsTests(db: Db, now: Time, call: Call, next: Db)
    requires Perform(db, now, call) == Ok(next)
    requires call.SetStepResult? || call.CompleteAttempt? || call.AbortAttempt? || call.CorrectAttempt?
    ensures next.tests == db.tests
  {
    hide EX.DeriveOverallResult, EX.StepAt;
  }

  lemma CreationKeepsTests(db: Db, now: Time, call: Call, next: Db)
    requires Perform(db, now, call) == Ok(next)
    requires call.CreateRelease? || call.CreatePlan? || call.DeletePlan? || call.CreateCycle?
    ensures next.tests == db.tests
  {
    hide Strip;
  }

  // ------------------------------------------------------------------ attempts

  /** The attempt rows a call writes to. */
  predicate TouchesAttempt(call: Call, a: Id) {
    match call
    case SetStepResult(b, _, _) => b == a
    case CompleteAttempt(b, _, _) => b == a
    case AbortAttempt(b, _) => b == a
    case CorrectAttempt(b, _, _, _) => b == a
    case _ => false
  }

  /** A new attempt: of the test that was started, then, where its cycle runs, with nothing
      marked, decided or corrected. */
  ghost predicate JustStarted(db: Db, now: Time, t: Id, row: Attempt) {
    && t in db.tests && db.tests[t].cycleId in db.cycles
    && row.testId == t && row.cycleId == db.tests[t].cycleId && row.project == db.tests[t].project
    && db.tests[t].versionId == Some(row.versionId)
    && row.context == db.cycles[db.tests[t].cycleId].context
    && row.started == now && row.status.InProgress? && row.overall.None? && row.ended.None?
    && !row.overridden && row.corrections == []
    && Texts(row.steps) == db.tests[t].steps
    && (forall i :: 0 <= i < |row.steps| ==> row.steps[i].result.StepNotRun?)
  }

  ghost predicate AttemptsTouched(db: Db, now: Time, call: Call, next: Db) {
    && (forall a :: a in db.attempts ==> a in next.attempts)
    && (forall a :: a in db.attempts && !TouchesAttempt(call, a) ==> next.attempts[a] == db.attempts[a])
    && (forall a :: a in next.attempts && a !in db.attempts ==> call.StartAttempt? && a == db.nextId)
    && (call.StartAttempt? ==> db.nextId in next.attempts && JustStarted(db, now, call.test, next.attempts[db.nextId]))
  }

  lemma AttemptsAreTouched(db: Db, now: Time, call: Call, next: Db)
    requires Inv(db) && Perform(db, now, call) == Ok(next)
    ensures AttemptsTouched(db, now, call, next)
  {
    hide AttemptsTouched, Inv, Perform, JustStarted;
    if ExecutionCall(call) {
      AttemptCallTouches(db, now, call, next);
    } else {
      OtherTablesStay(db, now, call, next);
      UntouchedAttempts(db, now, call, next);
    }
  }

  lemma UntouchedAttempts(db: Db, now: Time, call: Call, next: Db)
    requires next.attempts == db.attempts && !call.StartAttempt?
    ensures AttemptsTouched(db, now, call, next)
  {}

  lemma AttemptCallTouches(db: Db, now: Time, call: Call, next: Db)
    requires Inv(db) && Perform(db, now, call) == Ok(next) && ExecutionCall(call)
    ensures AttemptsTouched(db, now, call, next)
  {
    hide HasOpenAttempt, HasFinishedAttempt, EX.StartAttempt, AttemptsTouched, RepositoryOk, HistoriesOk, CyclesOk,
      TestsOk, LiveOnce, AttemptsOk, OneOpen, RetestsOk, Below, EX.SetStepResult, EX.CompleteAttempt,
      EX.AbortAttempt, EX.CorrectAttempt, EX.RequestRetest;
    match call
    case StartAttempt(t) => StartAddsAttempt(db, now, t, next);
    case SetStepResult(a, k, r) => MarkTouches(db, a, k, r, next);
    case CompleteAttempt(a, over, reason) => CompleteTouches(db, now, a, over, reason, next);
    case AbortAttempt(a, reason) => AbortTouches(db, now, a, reason, next);
    case RequestRetest(t) => RetestKeepsAttempts(db, t, next); UntouchedAttempts(db, now, call, next);
    case CorrectAttempt(a, field, value, reason) => CorrectTouches(db, now, a, field, value, reason, next);
  }

  lemma StartAddsAttempt(db: Db, now: Time, t: Id, next: Db)
    requires Below(db.attempts, db.nextId) && EX.StartAttempt(db, now, t) == Ok(next)
    ensures AttemptsTouched(db, now, Call.StartAttempt(t), next)
  {
    hide HasOpenAttempt;
    assert Texts(FreshMarks(db.tests[t].steps)) == db.tests[t].steps;
  }

  lemma MarkTouches(db: Db, a: Id, k: nat, r: Option<StepResult>, next: Db)
    requires EX.SetStepResult(db, a, k, r) == Ok(next)
    ensures forall now :: AttemptsTouched(db, now, Call.SetStepResult(a, k, r), next)
  {
    hide EX.StepAt;
  }

  lemma CompleteTouches(db: Db, now: Time, a: Id, over: Option<Verdict>, reason: bool, next: Db)
    requires EX.CompleteAttempt(db, now, a, over, reason) == Ok(next)
    ensures AttemptsTouched(db, now, Call.CompleteAttempt(a, over, reason), next)
  {
    hide EX.DeriveOverallResult;
  }

  lemma AbortTouches(db: Db, now: Time, a: Id, reason: bool, next: Db)
    requires EX.AbortAttempt(db, now, a, reason) == Ok(next)
    ensures AttemptsTouched(db, now, Call.AbortAttempt(a, reason), next)
  {}

  lemma CorrectTouches(db: Db, now: Time, a: Id, field: string, value: Verdict, reason: bool, next: Db)
    requires EX.CorrectAttempt(db, now, a, field, value, reason) == Ok(next)
    ensures AttemptsTouched(db, now, Call.CorrectAttempt(a, field, value, reason), next)
  {}

  lemma RetestKeepsAttempts(db: Db, t: Id, next: Db)
    requires EX.RequestRetest(db, t) == Ok(next)
    ensures next.attempts == db.attempts
  {}
}
