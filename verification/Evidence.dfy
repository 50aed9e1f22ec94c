/** The coupled machine of test cases, cycles and attempts, and what every run of it keeps.
    A call that raises leaves the database as it was: its transaction is rolled back. */
module Evidence {
  import opened Common
  import opened Tables
  import TC = TestCases
  import PL = Planning
  import EX = Execution

  datatype Call =
    | CreateTestCase(project: Id, title: string, description: Option<string>,
                     preconditions: Option<string>, steps: seq<TC.StepInput>, automation: Automation)
    | UpdateTestCase(case_: Id, expected: nat, edit: TC.Edit)
    | TransitionVersion(case_: Id, status: VersionStatus, expected: nat)
    | TransitionLifecycle(case_: Id, state: Lifecycle, expected: nat)
    | CreateRelease(project: Id)
    | CreatePlan(project: Id, release: Option<Id>)
    | DeletePlan(plan: Id)
    | CreateCycle(plan: Id, release: Option<Id>, environment: string, build: string)
    | CloneCycle(cycle: Id, environment: string, build: string, rows: seq<Id>)
    | AddCycleTests(cycle: Id, caseIds: seq<Id>)
    | TransitionCycle(cycle: Id, target: CycleStatus, expected: nat, reasonGiven: bool)
    | RemoveCycleTest(test: Id)
    | RefreshCycleTestVersion(test: Id)
    | StartAttempt(test: Id)
    | SetStepResult(attempt: Id, index: nat, result: Option<StepResult>)
    | CompleteAttempt(attempt: Id, overrideResult: Option<Verdict>, reasonGiven: bool)
    | AbortAttempt(attempt: Id, reasonGiven: bool)
    | RequestRetest(test: Id)
    | CorrectAttempt(attempt: Id, field: string, newValue: Verdict, reasonGiven: bool)

  ghost function Perform(db: Db, now: Time, call: Call): Result<Db> {
    match call
    case CreateTestCase(p, title, d, pre, steps, auto) => TC.CreateTestCase(db, p, title, d, pre, steps, auto)
    case UpdateTestCase(c, expected, edit) => TC.UpdateTestCase(db, c, expected, edit)
    case TransitionVersion(c, status, expected) => TC.TransitionVersion(db, c, status, expected)
    case TransitionLifecycle(c, state, expected) => TC.TransitionLifecycle(db, c, state, expected)
    case CreateRelease(p) => PL.CreateRelease(db, p)
    case CreatePlan(p, release) => PL.CreatePlan(db, p, release)
    case DeletePlan(p) => PL.DeletePlan(db, p)
    case CreateCycle(p, release, env, build) => PL.CreateCycle(db, p, release, env, build)
    case CloneCycle(c, env, build, rows) =>
      // `rows` is whatever order the query returns the source's live tests in
      if Enumerates(rows, PL.LiveTests(db, c)) then PL.CloneCycle(db, c, env, build, rows) else Err(Broken)
    case AddCycleTests(c, caseIds) => PL.AddCycleTests(db, c, caseIds)
    case TransitionCycle(c, target, expected, reason) => PL.TransitionCycle(db, c, target, expected, reason)
    case RemoveCycleTest(t) => PL.RemoveCycleTest(db, t)
    case RefreshCycleTestVersion(t) => PL.RefreshCycleTestVersion(db, t)
    case StartAttempt(t) => EX.StartAttempt(db, now, t)
    case SetStepResult(a, index, result) => EX.SetStepResult(db, a, index, result)
    case CompleteAttempt(a, over, reason) => EX.CompleteAttempt(db, now, a, over, reason)
    case AbortAttempt(a, reason) => EX.AbortAttempt(db, now, a, reason)
    case RequestRetest(t) => EX.RequestRetest(db, t)
    case CorrectAttempt(a, field, value, reason) => EX.CorrectAttempt(db, now, a, field, value, reason)
  }

  ghost function Apply(db: Db, now: Time, call: Call): Db {
    match Perform(db, now, call)
    case Ok(next) => next
    case Err(_) => db
  }

  type History = seq<(Time, Call)>

  ghost function Run(db: Db, calls: History): Db
    decreases |calls|
  {
    if calls == [] then db
    else
      var last := calls[|calls| - 1];
      Apply(Run(db, calls[..|calls| - 1]), last.0, last.1)
  }

  // ------------------------------------------------------------------ the invariant

  predicate Locking(status: VersionStatus) {
    status.Approved? || status.Superseded?
  }

  predicate NeedsApproval(state: Lifecycle) {
    state.Approved? || state.Active? || state.Deprecated?
  }

  ghost predicate VersionOk(cases: map<Id, Case>, versions: map<Id, Version>, v: Id)
    requires v in versions
  {
    var row := versions[v];
    && row.caseId in cases
    && TC.Numbered(row.steps)
    && (row.locked <==> Locking(row.status))
    && (row.status.Draft? ==> cases[row.caseId].current == v)
    && (row.status.Approved? ==> cases[row.caseId].approved == Some(v))
  }

  ghost predicate CaseOk(cases: map<Id, Case>, versions: map<Id, Version>, c: Id)
    requires c in cases
  {
    var tc := cases[c];
    && tc.current in versions
    && versions[tc.current].caseId == c
    && versions[tc.current].title == tc.title
    && (tc.approved.Some? ==>
          && tc.approved.value in versions
          && versions[tc.approved.value].caseId == c
          && versions[tc.approved.value].status.Approved?)
    && (NeedsApproval(tc.lifecycle) ==> tc.approved.Some?)
  }

  ghost predicate RepositoryOk(cases: map<Id, Case>, versions: map<Id, Version>) {
    && (forall v :: v in versions ==> VersionOk(cases, versions, v))
    && (forall c :: c in cases ==> CaseOk(cases, versions, c))
  }

  /** The versions of a case are numbered 1..n without gap or repetition, and n is current. */
  ghost predicate HistoryOk(versions: map<Id, Version>, c: Id, current: Id)
    requires current in versions
  {
    var n := versions[current].number;
    && n >= 1
    && (forall v :: v in versions && versions[v].caseId == c ==> 1 <= versions[v].number <= n)
    && (forall v, w :: v in versions && w in versions && SameNumber(versions[v], versions[w], c) ==> v == w)
    && (forall k: nat :: 1 <= k <= n ==> HasNumber(versions, c, k))
  }

  ghost predicate SameNumber(v: Version, w: Version, c: Id) {
    v.caseId == c && w.caseId == c && v.number == w.number
  }

  ghost predicate HasNumber(versions: map<Id, Version>, c: Id, k: nat) {
    exists v :: v in versions && versions[v].caseId == c && versions[v].number == k
  }

  ghost predicate HistoriesOk(cases: map<Id, Case>, versions: map<Id, Version>) {
    forall c :: c in cases ==> cases[c].current in versions && HistoryOk(versions, c, cases[c].current)
  }

  ghost predicate CyclesOk(plans: map<Id, Plan>, cycles: map<Id, Cycle>) {
    forall c :: c in cycles ==>
      && cycles[c].context.plan in plans
      && plans[cycles[c].context.plan].project == cycles[c].project
  }

  predicate MustBeSnapshotted(status: CycleStatus) {
    status.Active? || status.Completed? || status.Reopened?
  }

  ghost predicate TestOk(cases: map<Id, Case>, versions: map<Id, Version>, cycles: map<Id, Cycle>, ct: CycleTest) {
    && ct.cycleId in cycles
    && ct.caseId in cases
    && ct.project == cycles[ct.cycleId].project == cases[ct.caseId].project
    && (ct.versionId.None? ==> ct.steps == [])
    && (ct.versionId.Some? ==>
          && ct.versionId.value in versions
          && versions[ct.versionId.value].caseId == ct.caseId
          && versions[ct.versionId.value].locked
          && ct.steps == versions[ct.versionId.value].steps)
    && (MustBeSnapshotted(cycles[ct.cycleId].status) && !ct.removed ==> ct.versionId.Some?)
  }

  ghost predicate Clash(a: CycleTest, b: CycleTest) {
    !a.removed && !b.removed && a.cycleId == b.cycleId && a.caseId == b.caseId
  }

  ghost predicate LiveOnce(tests: map<Id, CycleTest>) {
    forall t, u :: t in tests && u in tests && Clash(tests[t], tests[u]) ==> t == u
  }

  ghost predicate TestsOk(
    cases: map<Id, Case>, versions: map<Id, Version>, cycles: map<Id, Cycle>, tests: map<Id, CycleTest>)
  {
    forall t :: t in tests ==> TestOk(cases, versions, cycles, tests[t])
  }

  /** The columns of one attempt row agree with one another. */
  ghost predicate RowOk(a: Attempt) {
    && (a.status.InProgress? || Terminal(a.status))
    && (a.status.InProgress? ==> a.overall.None? && a.ended.None? && a.corrections == [])
    && (Terminal(a.status) ==> a.overall == Some(a.status) && a.ended.Some?)
    && (forall i :: 0 <= i < |a.corrections| ==>
          Terminal(a.corrections[i].newValue) && a.corrections[i].oldValue == a.overall)
  }

  ghost predicate AttemptOk(cycles: map<Id, Cycle>, tests: map<Id, CycleTest>, a: Attempt) {
    && RowOk(a)
    && a.testId in tests
    && a.cycleId == tests[a.testId].cycleId
    && a.project == tests[a.testId].project
    && tests[a.testId].versionId == Some(a.versionId)
    && Texts(a.steps) == tests[a.testId].steps
    && a.cycleId in cycles
    && a.context == cycles[a.cycleId].context
    && !cycles[a.cycleId].status.Draft?
    && (a.status.InProgress? ==> !cycles[a.cycleId].status.Completed?)
  }

  ghost predicate BothOpen(a: Attempt, b: Attempt) {
    a.status.InProgress? && b.status.InProgress? && a.testId == b.testId
  }

  ghost predicate OneOpen(attempts: map<Id, Attempt>) {
    forall a, b :: a in attempts && b in attempts && BothOpen(attempts[a], attempts[b]) ==> a == b
  }

  ghost predicate AttemptsOk(cycles: map<Id, Cycle>, tests: map<Id, CycleTest>, attempts: map<Id, Attempt>) {
    forall a :: a in attempts ==> AttemptOk(cycles, tests, attempts[a])
  }

  ghost predicate RetestsOk(tests: map<Id, CycleTest>, attempts: map<Id, Attempt>) {
    forall t :: t in tests && tests[t].retest ==> HasFinishedAttempt(attempts, t)
  }

  ghost predicate Below<T>(rows: map<Id, T>, next: Id) {
    forall k :: k in rows ==> k < next
  }

  ghost predicate IdsOk(db: Db) {
    && Below(db.releases, db.nextId) && Below(db.cases, db.nextId) && Below(db.versions, db.nextId)
    && Below(db.plans, db.nextId) && Below(db.cycles, db.nextId) && Below(db.tests, db.nextId)
    && Below(db.attempts, db.nextId)
  }

  ghost predicate Inv(db: Db) {
    && IdsOk(db)
    && RepositoryOk(db.cases, db.versions)
    && HistoriesOk(db.cases, db.versions)
    && CyclesOk(db.plans, db.cycles)
    && TestsOk(db.cases, db.versions, db.cycles, db.tests)
    && LiveOnce(db.tests)
    && AttemptsOk(db.cycles, db.tests, db.attempts)
    && OneOpen(db.attempts)
    && RetestsOk(db.tests, db.attempts)
  }

  // ------------------------------------------------------------------ what a step may change

  /** No version loses its identity, and locked content stays as it is. */
  ghost predicate VersionsKept(before: map<Id, Version>, after: map<Id, Version>) {
    forall v :: v in before ==>
      && v in after
      && after[v].caseId == before[v].caseId
      && after[v].number == before[v].number
      && (before[v].locked ==> after[v].locked && ContentOf(after[v]) == ContentOf(before[v]))
  }

  /** A version that is no longer current keeps its content too, locked or not. */
  ghost predicate OldContentKept(before: Db, after: Db) {
    forall v :: v in before.versions && !Rewritable(before, v) ==>
      && v in after.versions
      && !Rewritable(after, v)
      && ContentOf(after.versions[v]) == ContentOf(before.versions[v])
  }

  ghost predicate Rewritable(db: Db, v: Id)
    requires v in db.versions
  {
    && !db.versions[v].locked
    && db.versions[v].caseId in db.cases
    && db.cases[db.versions[v].caseId].current == v
  }

  ghost predicate CasesKept(before: map<Id, Case>, after: map<Id, Case>) {
    forall c :: c in before ==> c in after && after[c].project == before[c].project
  }

  ghost predicate CyclesKept(before: map<Id, Cycle>, after: map<Id, Cycle>) {
    forall c :: c in before ==>
      && c in after
      && after[c].project == before[c].project
      && after[c].context == before[c].context
      && (!before[c].status.Draft? ==> !after[c].status.Draft?)
  }

  ghost predicate TestsKept(before: map<Id, CycleTest>, after: map<Id, CycleTest>) {
    forall t :: t in before ==>
      && t in after
      && after[t].cycleId == before[t].cycleId
      && after[t].project == before[t].project
      && after[t].caseId == before[t].caseId
      && (before[t].removed ==> after[t].removed)
  }

  /** Nothing but the marks and the verdict of an open attempt changes; a finished one
      only collects corrections. */
  ghost predicate AttemptKept(before: Attempt, after: Attempt) {
    && after.testId == before.testId
    && after.cycleId == before.cycleId
    && after.project == before.project
    && after.versionId == before.versionId
    && after.context == before.context
    && after.started == before.started
    && Texts(after.steps) == Texts(before.steps)
    && before.corrections <= after.corrections
    && (Terminal(before.status) ==> after == before.(corrections := after.corrections))
  }

  ghost predicate AttemptsKept(before: map<Id, Attempt>, after: map<Id, Attempt>) {
    forall a :: a in before ==> a in after && AttemptKept(before[a], after[a])
  }

  ghost predicate ReleasesKept(before: map<Id, Id>, after: map<Id, Id>) {
    forall r :: r in before ==> r in after && after[r] == before[r]
  }

  ghost predicate Grows(before: Db, after: Db) {
    && after.projects == before.projects
    && before.nextId <= after.nextId
    && ReleasesKept(before.releases, after.releases)
    && VersionsKept(before.versions, after.versions)
    && OldContentKept(before, after)
    && CasesKept(before.cases, after.cases)
    && CyclesKept(before.cycles, after.cycles)
    && TestsKept(before.tests, after.tests)
    && AttemptsKept(before.attempts, after.attempts)
  }
}
