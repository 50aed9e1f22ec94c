/** The rows the test-evidence services read and write (backend/app/models.py). */
module Tables {
  import opened Common

  type Id = nat
  type Time = int

  // ------------------------------------------------------------------ test repository

  /** A row of test_step or cycle_test_step. */
  datatype StepText = StepText(index: nat, action: string, expected: string, required: bool)

  datatype VersionStatus = Draft | InReview | Approved | Superseded

  datatype Version = Version(
    caseId: Id, number: nat, status: VersionStatus,
    title: string, description: Option<string>, preconditions: Option<string>,
    locked: bool, steps: seq<StepText>)

  datatype Lifecycle = Draft | InReview | Approved | Active | Deprecated | Archived

  datatype Automation = NotApplicable | Candidate | Automated

  datatype Case = Case(
    project: Id, title: string, lifecycle: Lifecycle,
    current: Id, approved: Option<Id>,
    automation: Automation, eligible: bool, rev: nat)

  // ------------------------------------------------------------------ plans and cycles

  datatype Plan = Plan(project: Id, release: Option<Id>)

  datatype CycleStatus = Draft | Active | Completed | Reopened | Archived

  /** What an attempt records about where it ran. */
  datatype RunContext = RunContext(plan: Id, release: Option<Id>, environment: string, build: string)

  datatype Cycle = Cycle(project: Id, status: CycleStatus, context: RunContext, rev: nat)

  datatype CycleTest = CycleTest(
    cycleId: Id, project: Id, caseId: Id, versionId: Option<Id>, steps: seq<StepText>,
    removed: bool, retest: bool)

  // ------------------------------------------------------------------ attempts

  /** Attempt statuses, overall results and displayed results share one vocabulary. */
  datatype Verdict =
    | InProgress | Passed | Failed | Blocked | Skipped | Aborted
    | NotRun | RetestPending

  predicate Terminal(v: Verdict) {
    v.Passed? || v.Failed? || v.Blocked? || v.Skipped? || v.Aborted?
  }

  datatype StepResult = StepNotRun | StepPassed | StepFailed | StepBlocked | StepSkipped

  /** A row of execution_step: the copied text and the tester's mark. */
  datatype StepMark = StepMark(text: StepText, result: StepResult)

  datatype Correction = Correction(oldValue: Option<Verdict>, newValue: Verdict, at: Time)

  datatype Attempt = Attempt(
    testId: Id, cycleId: Id, project: Id, versionId: Id, context: RunContext,
    steps: seq<StepMark>, status: Verdict, overall: Option<Verdict>, started: Time,
    ended: Option<Time>, overridden: bool, corrections: seq<Correction>)

  // ------------------------------------------------------------------ the database

  datatype Db = Db(
    projects: set<Id>,
    releases: map<Id, Id>,
    cases: map<Id, Case>,
    versions: map<Id, Version>,
    plans: map<Id, Plan>,
    cycles: map<Id, Cycle>,
    tests: map<Id, CycleTest>,
    attempts: map<Id, Attempt>,
    nextId: Id)

  function EmptyDb(projects: set<Id>): Db {
    Db(projects, map[], map[], map[], map[], map[], map[], map[], 0)
  }

  /** The columns a reader of a version sees as its content. */
  datatype Content = Content(
    title: string, description: Option<string>, preconditions: Option<string>, steps: seq<StepText>)

  function ContentOf(v: Version): Content {
    Content(v.title, v.description, v.preconditions, v.steps)
  }

  function Texts(marks: seq<StepMark>): (texts: seq<StepText>)
    ensures |texts| == |marks|
    ensures forall i :: 0 <= i < |marks| ==> texts[i] == marks[i].text
  {
    seq(|marks|, i requires 0 <= i < |marks| => marks[i].text)
  }

  function FreshMarks(texts: seq<StepText>): (marks: seq<StepMark>)
    ensures |marks| == |texts|
    ensures forall i :: 0 <= i < |texts| ==> marks[i] == StepMark(texts[i], StepNotRun)
  {
    seq(|texts|, i requires 0 <= i < |texts| => StepMark(texts[i], StepNotRun))
  }

  // ------------------------------------------------------------------ attempt queries

  predicate OpenOn(a: Attempt, t: Id) {
    a.testId == t && a.status.InProgress?
  }

  predicate FinishedOn(a: Attempt, t: Id) {
    a.testId == t && Terminal(a.status)
  }

  predicate HasAttempt(attempts: map<Id, Attempt>, t: Id) {
    exists a :: a in attempts && attempts[a].testId == t
  }

  predicate HasOpenAttempt(attempts: map<Id, Attempt>, t: Id) {
    exists a :: a in attempts && OpenOn(attempts[a], t)
  }

  predicate HasFinishedAttempt(attempts: map<Id, Attempt>, t: Id) {
    exists a :: a in attempts && FinishedOn(attempts[a], t)
  }
}
