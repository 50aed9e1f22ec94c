/** Plans, cycles and the activation snapshot (backend/app/domain/planning.py). */
module Planning {
  import opened Common
  import opened Tables

  predicate KnownRelease(db: Db, project: Id, release: Option<Id>) {
    release.Some? ==> release.value in db.releases && db.releases[release.value] == project
  }

  function CreateRelease(db: Db, project: Id): Result<Db> {
    if project !in db.projects then Err(NotFound) else
    Ok(db.(releases := db.releases[db.nextId := project], nextId := db.nextId + 1))
  }

  function CreatePlan(db: Db, project: Id, release: Option<Id>): Result<Db> {
    if project !in db.projects then Err(NotFound) else
    if !KnownRelease(db, project, release) then Err(Invalid) else
    Ok(db.(plans := db.plans[db.nextId := Plan(project, release)], nextId := db.nextId + 1))
  }

  predicate HasCycle(db: Db, p: Id) {
    exists c :: c in db.cycles && db.cycles[c].context.plan == p
  }

  function DeletePlan(db: Db, p: Id): Result<Db> {
    if p !in db.plans then Err(NotFound) else
    if HasCycle(db, p) then Err(Invalid) else
    Ok(db.(plans := db.plans - {p}))
  }

  function CreateCycle(db: Db, p: Id, release: Option<Id>, environment: string, build: string): Result<Db> {
    if p !in db.plans then Err(NotFound) else
    var plan := db.plans[p];
    if !KnownRelease(db, plan.project, release) then Err(Invalid) else
    var context := RunContext(p, if release.Some? then release else plan.release,
                              StripOr(environment, "default"), StripOr(build, "unspecified"));
    Ok(db.(cycles := db.cycles[db.nextId := Cycle(plan.project, CycleStatus.Draft, context, 1)],
           nextId := db.nextId + 1))
  }

  // ------------------------------------------------------------------ scope

  predicate LiveIn(ct: CycleTest, cycle: Id) {
    ct.cycleId == cycle && !ct.removed
  }

  function LiveTests(db: Db, cycle: Id): set<Id> {
    set t | t in db.tests && LiveIn(db.tests[t], cycle)
  }

  predicate HasCase(db: Db, cycle: Id, c: Id) {
    exists t :: t in db.tests && LiveIn(db.tests[t], cycle) && db.tests[t].caseId == c
  }

  function NewTest(cycle: Id, project: Id, c: Id): CycleTest {
    CycleTest(cycle, project, c, None, [], false, false)
  }

  predicate Open(status: CycleStatus) {
    status.Draft? || status.Active? || status.Reopened?
  }

  predicate Running(status: CycleStatus) {
    status.Active? || status.Reopened?
  }

  /** The clone gets a test for each live test of the source, in the order `rows` the
      query happens to return them. */
  function CloneCycle(db: Db, source: Id, environment: string, build: string, rows: seq<Id>): Result<Db>
    requires forall t :: t in rows ==> t in db.tests
  {
    if source !in db.cycles then Err(NotFound) else
    var src := db.cycles[source];
    var context := src.context.(
                   environment := StripOr(if environment == "" then src.context.environment else environment, "default"),
                   build := StripOr(if build == "" then src.context.build else build, "unspecified"));
    var cycle := db.nextId;
    Ok(db.(
       cycles := db.cycles[cycle := Cycle(src.project, CycleStatus.Draft, context, 1)],
       tests := db.tests + ClonedTests(db.tests, cycle, src.project, rows),
       nextId := cycle + 1 + |rows|))
  }

  function ClonedTests(tests: map<Id, CycleTest>, cycle: Id, project: Id, rows: seq<Id>): map<Id, CycleTest>
    requires forall t :: t in rows ==> t in tests
  {
    map t: nat | cycle < t <= cycle + |rows| :: Cloned(tests, cycle, project, rows, t)
  }

  function Cloned(tests: map<Id, CycleTest>, cycle: Id, project: Id, rows: seq<Id>, t: Id): CycleTest
    requires forall r :: r in rows ==> r in tests
    requires cycle < t <= cycle + |rows|
  {
    NewTest(cycle, project, tests[rows[t - cycle - 1]].caseId)
  }

  /** _snapshot_cycle_test: the test takes over the approved version's id and steps. */
  function Snapshot(db: Db, ct: CycleTest): CycleTest {
    if ct.caseId in db.cases && db.cases[ct.caseId].approved.Some?
       && db.cases[ct.caseId].approved.value in db.versions then
      var v := db.cases[ct.caseId].approved.value;
      ct.(versionId := Some(v), steps := db.versions[v].steps)
    else ct
  }

  predicate CanSnapshot(db: Db, ct: CycleTest) {
    ct.caseId in db.cases && db.cases[ct.caseId].approved.Some?
  }

  /** The rows a snapshot asserts to exist. */
  predicate SnapshotBroken(db: Db, ct: CycleTest) {
    || ct.caseId !in db.cases
    || (db.cases[ct.caseId].approved.Some? && db.cases[ct.caseId].approved.value !in db.versions)
  }

  /** One round of the loop of add_cycle_tests. */
  function AddCycleTest(db: Db, cycle: Id, c: Id): Result<Db> {
    if cycle !in db.cycles then Err(NotFound) else
    var cyc := db.cycles[cycle];
    if c !in db.cases || db.cases[c].project != cyc.project then Err(Invalid) else
    if HasCase(db, cycle, c) then Err(Duplicate) else
    var ct := NewTest(cycle, cyc.project, c);
    if Running(cyc.status) && !CanSnapshot(db, ct) then Err(Invalid) else
    if Running(cyc.status) && SnapshotBroken(db, ct) then Err(Broken) else
    Ok(db.(tests := db.tests[db.nextId := if Running(cyc.status) then Snapshot(db, ct) else ct],
           nextId := db.nextId + 1))
  }

  function AddEach(db: Db, cycle: Id, caseIds: seq<Id>): Result<Db>
    decreases |caseIds|
  {
    if caseIds == [] then Ok(db)
    else
      var next :- AddCycleTest(db, cycle, caseIds[0]);
      AddEach(next, cycle, caseIds[1..])
  }

  function AddCycleTests(db: Db, cycle: Id, caseIds: seq<Id>): Result<Db> {
    if cycle !in db.cycles then Err(NotFound) else
    if !Open(db.cycles[cycle].status) then Err(NotAllowed) else
    AddEach(db, cycle, caseIds)
  }

  // ------------------------------------------------------------------ cycle status

  predicate CycleMove(source: CycleStatus, target: CycleStatus) {
    match target
    case Active => source.Draft?
    case Completed => source.Active? || source.Reopened?
    case Reopened => source.Completed?
    case Archived => !source.Archived?
    case Draft => false
  }

  predicate CycleHasOpenAttempt(db: Db, cycle: Id) {
    exists a :: a in db.attempts && db.attempts[a].cycleId == cycle && db.attempts[a].status.InProgress?
  }

  predicate AnySnapshotBroken(db: Db, cycle: Id) {
    exists t :: t in LiveTests(db, cycle) && SnapshotBroken(db, db.tests[t])
  }

  predicate AllCanSnapshot(db: Db, cycle: Id) {
    forall t :: t in LiveTests(db, cycle) ==> CanSnapshot(db, db.tests[t])
  }

  function SnapshotAll(db: Db, cycle: Id): map<Id, CycleTest> {
    map t | t in db.tests ::
      if LiveIn(db.tests[t], cycle) then Snapshot(db, db.tests[t]) else db.tests[t]
  }

  function TransitionCycle(db: Db, cycle: Id, target: CycleStatus, expected: nat, reasonGiven: bool): Result<Db> {
    if cycle !in db.cycles then Err(NotFound) else
    var cyc := db.cycles[cycle];
    if cyc.rev != expected then Err(Conflict) else
    if !CycleMove(cyc.status, target) then Err(NotAllowed) else
    if target.Active? && LiveTests(db, cycle) == {} then Err(NotAllowed) else
    if target.Active? && AnySnapshotBroken(db, cycle) then Err(Broken) else
    if target.Active? && !AllCanSnapshot(db, cycle) then Err(Invalid) else
    if target.Completed? && CycleHasOpenAttempt(db, cycle) then Err(NotAllowed) else
    if target.Reopened? && !reasonGiven then Err(Invalid) else
    Ok(db.(
       tests := if target.Active? then SnapshotAll(db, cycle) else db.tests,
       cycles := db.cycles[cycle := cyc.(status := target, rev := cyc.rev + 1)]))
  }

  function RemoveCycleTest(db: Db, t: Id): Result<Db> {
    if t !in db.tests || db.tests[t].removed then Err(NotFound) else
    var ct := db.tests[t];
    if ct.cycleId !in db.cycles then Err(Broken) else
    if !Open(db.cycles[ct.cycleId].status) then Err(NotAllowed) else
    if HasOpenAttempt(db.attempts, t) then Err(NotAllowed) else
    Ok(db.(tests := db.tests[t := ct.(removed := true)]))
  }

  function RefreshCycleTestVersion(db: Db, t: Id): Result<Db> {
    if t !in db.tests then Err(NotFound) else
    if HasAttempt(db.attempts, t) then Err(NotAllowed) else
    var ct := db.tests[t];
    if ct.caseId !in db.cases then Err(Broken) else
    if !CanSnapshot(db, ct) then Err(Invalid) else
    if SnapshotBroken(db, ct) then Err(Broken) else
    Ok(db.(tests := db.tests[t := Snapshot(db, ct)]))
  }
}
