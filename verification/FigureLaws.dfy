/** What one call does to the reported figures: which columns a figure follows, and that it
    follows nothing else (backend/app/domain/reporting.py). */
module FigureLaws {
  import opened Common
  import opened Tables
  import opened Evidence
  import opened Preservation
  import opened Backlog
  import opened Traceability
  import opened Runs
  import opened Ledger
  import opened ExecutionHistory
  import opened PlanningHistory
  import opened CaseHistory
  import opened Resolver
  import opened Register
  import opened Metrics
  import TC = TestCases
  import PL = Planning

  // ------------------------------------------------------------------ coverage follows the lifecycle

  /** The case is approved or active. */
  predicate InForce(w: World, c: Id) {
    c in w.db.cases && (w.db.cases[c].lifecycle == Lifecycle.Approved || w.db.cases[c].lifecycle == Lifecycle.Active)
  }

  lemma QualifiesExactly(w: World, c: Id)
    requires Inv(w.db)
    ensures Qualifies(w, c) <==> InForce(w, c)
  {
    hide Inv;
    if c in w.db.cases { CurrentKnown(w.db, c); }
  }

  /** In every reachable state an active requirement is counted by M-05 when a case that covers
      it is approved or active, and by M-09 when none is, whatever the scope. */
  lemma DesignCoverageExactly(projects: set<Id>, acts: seq<(Time, Act)>, s: Scope, r: Id)
    ensures var w := ReachedWorld(projects, acts);
      && var covered := exists c :: IsCoveredBy(w, s.project, r, c) && InForce(w, c);
      && (r in Counted(w, s, M05) <==> r in ActiveRequirements(w, s.project) && covered)
      && (r in Counted(w, s, M09) <==> r in ActiveRequirements(w, s.project) && !covered)
  {
    hide ReachedWorld, Inv, Qualifies, InForce, IsCoveredBy;
    ReachedWorldInv(projects, acts);
    var w := ReachedWorld(projects, acts);
    forall c ensures Qualifies(w, c) <==> InForce(w, c) { QualifiesExactly(w, c); }
  }

  /** One case changed, and its versions perhaps; nothing else did. */
  ghost predicate CaseOnly(w: World, next: World, c: Id) {
    && next == w.(db := w.db.(cases := next.db.cases, versions := next.db.versions))
    && next.db.cases.Keys == w.db.cases.Keys
    && forall x :: x in w.db.cases && x != c ==> next.db.cases[x] == w.db.cases[x]
  }

  /** The active requirements that only this case could keep covered. */
  ghost function Sole(w: World, project: Id, c: Id): set<Id> {
    set r | r in ActiveRequirements(w, project) && IsCoveredBy(w, project, r, c)
            && !exists d :: d != c && IsCoveredBy(w, project, r, d) && InForce(w, d)
  }

  lemma CoverageFramed(w: World, next: World, c: Id, project: Id, r: Id, d: Id)
    requires CaseOnly(w, next, c)
    ensures IsCoveredBy(next, project, r, d) <==> IsCoveredBy(w, project, r, d)
    ensures d != c ==> (InForce(next, d) <==> InForce(w, d))
  {
    hide LinksTo;
  }

  lemma ScopeFramed(w: World, next: World, c: Id, s: Scope, t: Id)
    requires CaseOnly(w, next, c)
    ensures next.db.tests == w.db.tests
    ensures InScope(next, s, t) <==> InScope(w, s, t)
    ensures ShownFor(next, t) == ShownFor(w, t)
  {
    hide CycleFits, Authoritative, HasOpenAttempt, Effective;
  }

  /** If the case enters or leaves force, exactly the requirements it alone keeps covered move
      between M-05 and M-09. */
  lemma CoverageMoves(w: World, next: World, s: Scope, c: Id)
    requires Inv(w.db) && Inv(next.db) && CaseOnly(w, next, c)
    ensures InForce(w, c) && !InForce(next, c) ==>
              && Counted(next, s, M05) == Counted(w, s, M05) - Sole(w, s.project, c)
              && Counted(next, s, M09) == Counted(w, s, M09) + Sole(w, s.project, c)
              && Sole(w, s.project, c) <= Counted(w, s, M05)
    ensures !InForce(w, c) && InForce(next, c) ==>
              && Counted(next, s, M05) == Counted(w, s, M05) + Sole(w, s.project, c)
              && Counted(next, s, M09) == Counted(w, s, M09) - Sole(w, s.project, c)
              && Sole(w, s.project, c) <= Counted(w, s, M09)
  {
    hide Inv, InForce, IsCoveredBy, Qualifies, CaseOnly;
    forall r, d
      ensures IsCoveredBy(next, s.project, r, d) <==> IsCoveredBy(w, s.project, r, d)
      ensures d != c ==> (InForce(next, d) <==> InForce(w, d))
    {
      CoverageFramed(w, next, c, s.project, r, d);
    }
    forall d ensures Qualifies(w, d) <==> InForce(w, d) { QualifiesExactly(w, d); }
    forall d ensures Qualifies(next, d) <==> InForce(next, d) { QualifiesExactly(next, d); }
    assert ActiveRequirements(next, s.project) == ActiveRequirements(w, s.project) by {
      SameRequirements(w, next, c, s.project);
    }
  }

  lemma SameRequirements(w: World, next: World, c: Id, project: Id)
    requires CaseOnly(w, next, c)
    ensures ActiveRequirements(next, project) == ActiveRequirements(w, project)
  {}

  predicate IsCoverage(m: MetricId) {
    m.M05? || m.M06? || m.M07? || m.M08? || m.M09?
  }

  /** If it stays in force, or out of it, no coverage figure changes and no drilled row. */
  lemma CoverageStays(w: World, next: World, s: Scope, c: Id, m: MetricId)
    requires Inv(w.db) && Inv(next.db) && CaseOnly(w, next, c) && (InForce(w, c) <==> InForce(next, c))
    requires IsCoverage(m)
    ensures Summary(next, s, m) == Summary(w, s, m) && DrillRows(next, s, m) == DrillRows(w, s, m)
  {
    hide Inv, InForce, IsCoveredBy, Qualifies, CaseOnly, InScope, ShownFor, Summary, DrillRows;
    forall d ensures Qualifies(next, d) <==> Qualifies(w, d) {
      CoverageFramed(w, next, c, s.project, 0, d);
      QualifiesExactly(w, d);
      QualifiesExactly(next, d);
    }
    forall r, d ensures IsCoveredBy(next, s.project, r, d) <==> IsCoveredBy(w, s.project, r, d) {
      CoverageFramed(w, next, c, s.project, r, d);
    }
    forall t
      ensures next.db.tests == w.db.tests
      ensures InScope(next, s, t) <==> InScope(w, s, t)
      ensures ShownFor(next, t) == ShownFor(w, t)
    {
      ScopeFramed(w, next, c, s, t);
    }
    SameRequirements(w, next, c, s.project);
    forall t ensures QualifyingTest(next, s, t) <==> QualifyingTest(w, s, t) {
      ScopeKnown(w, s, t);
      ScopeFramed(w, next, c, s, t);
    }
    forall r, t ensures TestsRequirement(next, s, r, t) <==> TestsRequirement(w, s, r, t) {
      ScopeKnown(w, s, t);
      ScopeFramed(w, next, c, s, t);
    }
    hide TestsRequirement, QualifyingTest;
    SameCoverage(w, next, s, m);
  }

  lemma ScopeKnown(w: World, s: Scope, t: Id)
    ensures InScope(w, s, t) ==> t in w.db.tests
  {}

  /** Two states that agree on which tests are for which requirement, and on what they show. */
  ghost predicate SameView(w: World, next: World, s: Scope) {
    && ActiveRequirements(next, s.project) == ActiveRequirements(w, s.project)
    && (forall r :: Designed(next, s, r) <==> Designed(w, s, r))
    && (forall r, t :: TestsRequirement(next, s, r, t) <==> TestsRequirement(w, s, r, t))
    && (forall t :: QualifyingTest(next, s, t) <==> QualifyingTest(w, s, t))
    && (forall t :: ShownFor(next, t) == ShownFor(w, t))
  }

  lemma SameCoverage(w: World, next: World, s: Scope, m: MetricId)
    requires SameView(w, next, s) && IsCoverage(m)
    ensures Summary(next, s, m) == Summary(w, s, m) && DrillRows(next, s, m) == DrillRows(w, s, m)
  {
    hide ActiveRequirements, Designed, TestsRequirement, QualifyingTest, ShownFor;
    assert ScopeAllGreen(next, s) <==> ScopeAllGreen(w, s);
    forall r
      ensures IsPlanned(next, s, r) <==> IsPlanned(w, s, r)
      ensures Executed(next, s, r) <==> Executed(w, s, r)
      ensures AllPassedOrSkipped(next, s, r) <==> AllPassedOrSkipped(w, s, r)
      ensures SomePassed(next, s, r) <==> SomePassed(w, s, r)
    {}
    hide ScopeAllGreen, IsPlanned, Executed, AllPassedOrSkipped, SomePassed, SameView;
    assert Counted(next, s, m) == Counted(w, s, m);
    assert Base(next, s, m) == Base(w, s, m);
    forall r ensures RowFor(next, s, m, r) == RowFor(w, s, m, r) {}
    assert Drilled(next, s, m) == Drilled(w, s, m);
    hide Counted, Base, RowFor, Drilled;
  }

  // ------------------------------------------------------------------ the calls that move coverage

  /** An accepted change of a case's lifecycle, or a decision on its current version. */
  ghost predicate Moves(db: Db, now: Time, call: Call, c: Id) {
    && Perform(db, now, call).Ok?
    && ((call.TransitionLifecycle? && call.case_ == c) || (call.TransitionVersion? && call.case_ == c))
  }

  /** Whether the case is in force afterwards. */
  predicate LeadsToForce(call: Call) {
    (call.TransitionLifecycle? && (call.state == Lifecycle.Active || call.state == Lifecycle.Approved))
    || (call.TransitionVersion? && call.status == VersionStatus.Approved)
  }

  lemma CoreStep(w: World, now: Time, call: Call)
    ensures Perform(w.db, now, call).Ok? ==> Step(w, now, Core(call)) == w.(db := Perform(w.db, now, call).value)
    ensures Perform(w.db, now, call).Err? ==> Step(w, now, Core(call)) == w
  {
    hide Perform;
  }

  lemma MovesOneCase(w: World, now: Time, call: Call, c: Id)
    requires Inv(w.db) && Moves(w.db, now, call, c)
    ensures var next := Step(w, now, Core(call));
      && CaseOnly(w, next, c) && Inv(next.db) && (InForce(next, c) <==> LeadsToForce(call))
  {
    hide Inv, Grows, Perform, Step, CaseOnly, InForce, LeadsToForce;
    var next := Perform(w.db, now, call).value;
    PerformKeeps(w.db, now, call, next);
    CoreStep(w, now, call);
    if call.TransitionLifecycle? {
      LifecycleMove(w, now, call, next);
    } else {
      DecisionMove(w, now, call, next);
    }
  }

  lemma LifecycleMove(w: World, now: Time, call: Call, next: Db)
    requires call.TransitionLifecycle? && Perform(w.db, now, call) == Ok(next)
    ensures CaseOnly(w, w.(db := next), call.case_)
    ensures InForce(w.(db := next), call.case_) <==> LeadsToForce(call)
  {
    hide TC.TransitionLifecycle;
    LifecycleWrites(w.db, call.case_, call.state, call.expected, next);
  }

  lemma DecisionMove(w: World, now: Time, call: Call, next: Db)
    requires call.TransitionVersion? && Perform(w.db, now, call) == Ok(next)
    ensures CaseOnly(w, w.(db := next), call.case_)
    ensures InForce(w.(db := next), call.case_) <==> LeadsToForce(call)
  {
    hide TC.TransitionVersion;
    DecisionWrites(w.db, call.case_, call.status, call.expected, next);
    DecisionAccepts(w.db, call.case_, call.status, call.expected);
    hide Complete;
  }

  /** In every reachable state: activating an approved case, like any move that leaves a case in
      force or out of it, changes no figure and no drilled row of M-05 to M-09; deprecating or
      archiving it, or sending a new version of it to review, moves exactly the requirements it
      alone keeps covered from M-05 to M-09, and approving or reactivating moves them back. */
  lemma LifecycleMovesCoverage(
    projects: set<Id>, acts: seq<(Time, Act)>, now: Time, call: Call, s: Scope, c: Id, m: MetricId)
    requires Moves(ReachedWorld(projects, acts).db, now, call, c) && IsCoverage(m)
    ensures var w := ReachedWorld(projects, acts);
      && var next, sole := Step(w, now, Core(call)), Sole(w, s.project, c);
      && (InForce(w, c) && LeadsToForce(call) ==>
            Summary(next, s, m) == Summary(w, s, m) && DrillRows(next, s, m) == DrillRows(w, s, m))
      && (InForce(w, c) && !LeadsToForce(call) ==>
            && sole <= Counted(w, s, M05) && Counted(next, s, M05) == Counted(w, s, M05) - sole
            && Counted(next, s, M09) == Counted(w, s, M09) + sole)
      && (!InForce(w, c) && LeadsToForce(call) ==>
            && sole <= Counted(w, s, M09) && Counted(next, s, M05) == Counted(w, s, M05) + sole
            && Counted(next, s, M09) == Counted(w, s, M09) - sole)
      && (!InForce(w, c) && !LeadsToForce(call) ==>
            Summary(next, s, m) == Summary(w, s, m) && DrillRows(next, s, m) == DrillRows(w, s, m))
  {
    hide ReachedWorld, Inv, Moves, CaseOnly, InForce, LeadsToForce, Step, Summary, DrillRows, Counted, Sole;
    ReachedWorldInv(projects, acts);
    var w := ReachedWorld(projects, acts);
    MovesOneCase(w, now, call, c);
    var next := Step(w, now, Core(call));
    if InForce(w, c) <==> LeadsToForce(call) {
      CoverageStays(w, next, s, c, m);
    } else {
      CoverageMoves(w, next, s, c);
    }
  }

  // ------------------------------------------------------------------ execution figures follow the calls

  /** The test shows a pending retest: one was asked for, none started since, and nothing runs. */
  ghost predicate Pending(run: Trail, t: Id) {
    RetestAsked(run, |run.calls|, t) && !RunningFor(run, |run.calls|, t)
  }

  /** With a strictly increasing clock, M-02 counts the scoped tests that some result event hit and
      no retest is pending for, M-03 those of them whose last event passed, out of those that
      passed, failed or were blocked, and M-04 those never started. */
  lemma ExecutionFiguresExactly(projects: set<Id>, calls: History, w: World, s: Scope)
    requires StrictlyIncreasing(calls) && w.db == Reached(projects, calls)
    ensures var run, cells := Trail(projects, calls), Cells(EmptyDb(projects), calls);
      && (forall t :: t in Counted(w, s, M02) <==> t in ScopedTests(w, s) && !Pending(run, t) && t in cells)
      && (forall t :: t in Counted(w, s, M03) <==>
            t in ScopedTests(w, s) && !Pending(run, t) && t in cells && cells[t].value.Passed?)
      && (forall t :: t in Base(w, s, M03) <==>
            && t in ScopedTests(w, s) && !Pending(run, t) && t in cells
            && (cells[t].value.Passed? || cells[t].value.Failed? || cells[t].value.Blocked?))
      && (forall t :: t in Counted(w, s, M04) <==> t in ScopedTests(w, s) && !EverStarted(run, |calls|, t))
  {
    var run, cells := Trail(projects, calls), Cells(EmptyDb(projects), calls);
    hide Reached, Cells, Pending, EverStarted, HasAttempt, InScope;
    forall t | t in w.db.tests
      ensures Pending(run, t) ==> ShownFor(w, t) == RetestPending
      ensures !Pending(run, t) ==> ShownFor(w, t) == if t in cells then cells[t].value else NotRun
      ensures t in cells ==> Terminal(cells[t].value)
      ensures HasAttempt(w.db.attempts, t) <==> EverStarted(run, |calls|, t)
    {
      ShownByCalls(projects, calls, w, t);
    }
    hide ShownFor;
  }

  /** The drilled rows of M-01 and M-02 show, of every scoped test, the pending retest or else the
      last result event that hit it; those of M-03 only the tests passed, failed or blocked by it. */
  lemma DrilledResultsExactly(projects: set<Id>, calls: History, w: World, s: Scope, m: MetricId, t: Id, v: Verdict)
    requires StrictlyIncreasing(calls) && w.db == Reached(projects, calls)
    requires m == M01 || m == M02 || m == M03
    ensures var run, cells := Trail(projects, calls), Cells(EmptyDb(projects), calls);
            DrillRow(t, ResultCell(v)) in DrillRows(w, s, m) <==>
              && t in ScopedTests(w, s)
              && v == (if Pending(run, t) then RetestPending else if t in cells then cells[t].value else NotRun)
              && (m == M03 ==> v == Verdict.Passed || v == Verdict.Failed || v == Verdict.Blocked)
  {
    var run, cells := Trail(projects, calls), Cells(EmptyDb(projects), calls);
    hide Reached, Cells, Pending, InScope, EverStarted, HasAttempt;
    if t in w.db.tests { ShownByCalls(projects, calls, w, t); }
    DrilledRow(w, s, m, DrillRow(t, ResultCell(v)));
    hide ShownFor, DrillRows;
  }

  lemma DrilledRow(w: World, s: Scope, m: MetricId, row: DrillRow)
    ensures row in DrillRows(w, s, m) <==> row.subject in Drilled(w, s, m) && row == RowFor(w, s, m, row.subject)
  {
    hide Drilled, RowFor;
    forall x ensures RowFor(w, s, m, x).subject == x { SubjectIs(w, s, m, x); }
  }

  lemma ShownByCalls(projects: set<Id>, calls: History, w: World, t: Id)
    requires StrictlyIncreasing(calls) && w.db == Reached(projects, calls) && t in w.db.tests
    ensures var run, cells := Trail(projects, calls), Cells(EmptyDb(projects), calls);
      && (Pending(run, t) ==> ShownFor(w, t) == RetestPending)
      && (!Pending(run, t) ==> ShownFor(w, t) == if t in cells then cells[t].value else NotRun)
      && (t in cells ==> Terminal(cells[t].value))
      && (HasAttempt(w.db.attempts, t) <==> EverStarted(run, |calls|, t))
  {
    hide Reached, Cells, RetestAsked, RunningFor, EverStarted, HasAttempt, Displayed;
    ResolverIsLastWriter(projects, calls, t);
    EndIsLast(Trail(projects, calls));
    AttemptedExactly(Trail(projects, calls), |calls|, t);
    CellsAreTerminal(projects, calls, t);
  }

  lemma CellsAreTerminal(projects: set<Id>, calls: History, t: Id)
    requires StrictlyIncreasing(calls)
    ensures var cells := Cells(EmptyDb(projects), calls); t in cells ==> Terminal(cells[t].value)
  {
    hide Cells, Reached, RepositoryOk, HistoriesOk, CyclesOk, TestsOk, LiveOnce, OneOpen, AttemptsOk, RetestsOk, Below,
      LastEvent, Effective;
    RegisterSimulates(projects, calls);
    ReachedInv(projects, calls);
    var db, cells := Reached(projects, calls), Cells(EmptyDb(projects), calls);
    if t in cells {
      EffectiveIsTerminal(db, cells[t].attempt);
    }
  }

  /** The last event of the test gave v, and no retest is pending. */
  ghost predicate Stands(run: Trail, cells: map<Id, Entry>, t: Id, v: Verdict) {
    !Pending(run, t) && t in cells && cells[t].value == v
  }

  /** A scoped test of a case in force. */
  ghost predicate Counts(w: World, s: Scope, t: Id) {
    t in ScopedTests(w, s) && t in w.db.tests && InForce(w, w.db.tests[t].caseId)
  }

  ghost predicate CountsFor(w: World, s: Scope, r: Id, t: Id) {
    Counts(w, s, t) && t in w.db.tests && IsCoveredBy(w, s.project, r, w.db.tests[t].caseId)
  }

  /** Every test in force that is in scope stands at passed or skipped, and one at passed. */
  ghost predicate GreenByCalls(run: Trail, cells: map<Id, Entry>, w: World, s: Scope) {
    && (exists t :: Counts(w, s, t) && Stands(run, cells, t, Passed))
    && (forall t :: Counts(w, s, t) ==> Stands(run, cells, t, Passed) || Stands(run, cells, t, Skipped))
  }

  /** With a strictly increasing clock, an active requirement is counted by M-06 when a test in
      force and in scope is for it, by M-07 when some result event hit such a test and no retest is
      pending for it, and by M-08 when it has such a test and the whole scope is green. */
  lemma ExecutionCoverageExactly(projects: set<Id>, calls: History, w: World, s: Scope, r: Id)
    requires StrictlyIncreasing(calls) && w.db == Reached(projects, calls)
    ensures var run, cells := Trail(projects, calls), Cells(EmptyDb(projects), calls);
      && var active := r in ActiveRequirements(w, s.project);
      && (r in Counted(w, s, M06) <==> active && exists t :: CountsFor(w, s, r, t))
      && (r in Counted(w, s, M07) <==>
            active && exists t :: CountsFor(w, s, r, t) && t in cells && !Pending(run, t))
      && (r in Counted(w, s, M08) <==>
            active && GreenByCalls(run, cells, w, s) && exists t :: CountsFor(w, s, r, t))
  {
    var run, cells := Trail(projects, calls), Cells(EmptyDb(projects), calls);
    hide Reached, Cells, Pending, InScope, Inv, Qualifies, InForce, IsCoveredBy, ActiveRequirements,
         ShownFor, EverStarted;
    ReachedInv(projects, calls);
    forall c ensures Qualifies(w, c) <==> InForce(w, c) { QualifiesExactly(w, c); }
    forall t
      ensures QualifyingTest(w, s, t) <==> Counts(w, s, t)
      ensures TestsRequirement(w, s, r, t) <==> CountsFor(w, s, r, t)
    {
      ScopeKnown(w, s, t);
    }
    forall t | t in w.db.tests
      ensures ShownFor(w, t).Passed? <==> Stands(run, cells, t, Passed)
      ensures PassedOrSkipped(ShownFor(w, t)) <==> Stands(run, cells, t, Passed) || Stands(run, cells, t, Skipped)
      ensures Terminal(ShownFor(w, t)) <==> t in cells && !Pending(run, t)
    {
      ShownByCalls(projects, calls, w, t);
    }
    hide QualifyingTest, TestsRequirement, Stands, PassedOrSkipped, Terminal;
    assert ScopeAllGreen(w, s) <==> GreenByCalls(run, cells, w, s);
    hide ScopeAllGreen, GreenByCalls;
    if ScopeAllGreen(w, s) { GreenPassesAll(w, s, r); }
    hide AllPassedOrSkipped;
  }

  lemma GreenPassesAll(w: World, s: Scope, r: Id)
    requires ScopeAllGreen(w, s)
    ensures AllPassedOrSkipped(w, s, r)
  {
    hide InScope, Qualifies, IsCoveredBy, ShownFor;
  }

  // ------------------------------------------------------------------ what is in scope

  /** Taking one test out of its cycle takes it out of every scope, and nothing else does or goes. */
  lemma RemovalLeavesScope(w: World, now: Time, s: Scope, t: Id)
    requires Inv(w.db) && Perform(w.db, now, Call.RemoveCycleTest(t)).Ok?
    ensures ScopedTests(Step(w, now, Core(Call.RemoveCycleTest(t))), s) == ScopedTests(w, s) - {t}
  {
    CoreStep(w, now, Call.RemoveCycleTest(t));
    hide Step, Inv, HasOpenAttempt, CycleFits;
  }

  /** Archiving a cycle takes exactly its tests out of every scope; no other move of a cycle does. */
  lemma OnlyArchivingLeavesScope(w: World, now: Time, s: Scope, call: Call)
    requires Inv(w.db) && call.TransitionCycle? && Perform(w.db, now, call).Ok?
    ensures var next := Step(w, now, Core(call));
      if call.target == CycleStatus.Archived
      then ScopedTests(next, s) == set t | t in ScopedTests(w, s) && w.db.tests[t].cycleId != call.cycle
      else ScopedTests(next, s) == ScopedTests(w, s)
  {
    hide Inv, Step, Perform;
    CoreStep(w, now, call);
    var next := Perform(w.db, now, call).value;
    MovedTests(w.db, now, call, next);
    hide TextFits;
  }

  lemma MovedTests(db: Db, now: Time, call: Call, next: Db)
    requires call.TransitionCycle? && Perform(db, now, call) == Ok(next)
    ensures next.tests.Keys == db.tests.Keys
    ensures forall t :: t in db.tests ==>
              next.tests[t] == db.tests[t].(versionId := next.tests[t].versionId, steps := next.tests[t].steps)
    ensures call.cycle in db.cycles && !db.cycles[call.cycle].status.Archived?
    ensures next.cycles ==
              db.cycles[call.cycle := db.cycles[call.cycle].(status := call.target, rev := call.expected + 1)]
  {
    hide PL.AllCanSnapshot, PL.AnySnapshotBroken, PL.CycleHasOpenAttempt, PL.LiveTests;
  }

  // ------------------------------------------------------------------ filters

  /** The cycle a scoped test runs in. */
  function ContextOf(w: World, t: Id): Option<RunContext> {
    if t in w.db.tests && w.db.tests[t].cycleId in w.db.cycles
    then Some(w.db.cycles[w.db.tests[t].cycleId].context)
    else None
  }

  /** A filter keeps, of what the scope has without it, exactly the tests whose cycle has that
      value; so the scopes of two values are disjoint, and together they leave nothing out. */
  lemma FiltersPartition(w: World, s: Scope)
    ensures s.cycle.Some? ==>
              ScopedTests(w, s) ==
              set t | t in ScopedTests(w, s.(cycle := None)) && w.db.tests[t].cycleId == s.cycle.value
    ensures s.plan.Some? ==>
              ScopedTests(w, s) ==
                set t | t in ScopedTests(w, s.(plan := None)) && ContextOf(w, t).Some?
                        && ContextOf(w, t).value.plan == s.plan.value
    ensures s.release.Some? ==>
              ScopedTests(w, s) ==
                set t | t in ScopedTests(w, s.(release := None)) && ContextOf(w, t).Some?
                        && ContextOf(w, t).value.release == s.release
    ensures s.environment.Some? && s.environment.value != "" ==>
              ScopedTests(w, s) ==
                set t | t in ScopedTests(w, s.(environment := None)) && ContextOf(w, t).Some?
                        && ContextOf(w, t).value.environment == s.environment.value
    ensures s.build.Some? && s.build.value != "" ==>
              ScopedTests(w, s) ==
                set t | t in ScopedTests(w, s.(build := None)) && ContextOf(w, t).Some?
                        && ContextOf(w, t).value.build == s.build.value
    ensures s.environment == Some("") ==> ScopedTests(w, s) == ScopedTests(w, s.(environment := None))
    ensures s.build == Some("") ==> ScopedTests(w, s) == ScopedTests(w, s.(build := None))
  {}

  lemma TestInItsProject(db: Db, t: Id)
    requires TestsOk(db.cases, db.versions, db.cycles, db.tests) && t in db.tests
    ensures db.tests[t].cycleId in db.cycles && db.cycles[db.tests[t].cycleId].project == db.tests[t].project
  {
    assert TestOk(db.cases, db.versions, db.cycles, db.tests[t]);
  }

  /** In every reachable state a test is in the scope of a project exactly when it was not
      removed and its cycle is a cycle of that project that is not archived; so no test is counted
      for two projects. */
  lemma WholeProjectExactly(projects: set<Id>, acts: seq<(Time, Act)>, project: Id, t: Id)
    ensures var w := ReachedWorld(projects, acts);
            t in ScopedTests(w, WholeProject(project)) <==>
              && t in w.db.tests && !w.db.tests[t].removed && w.db.tests[t].cycleId in w.db.cycles
              && var cycle := w.db.cycles[w.db.tests[t].cycleId];
              cycle.project == project && !cycle.status.Archived?
  {
    ReachedWorldInv(projects, acts);
    var w := ReachedWorld(projects, acts);
    hide ReachedWorld, TestsOk;
    if t in w.db.tests { TestInItsProject(w.db, t); }
  }

  // ------------------------------------------------------------------ defects

  predicate Severe(w: World, project: Id, d: Id) {
    d in w.defects && w.defects[d].project == project
    && (w.defects[d].severity == Severity.Critical || w.defects[d].severity == Severity.High)
  }

  /** The active requirements a defect touches: linked to it, or tested where it was raised. */
  ghost function Touched(w: World, s: Scope, d: Id): set<Id> {
    set r | r in ActiveRequirements(w, s.project) && (RegressesDirectly(w, s, r, d) || RaisedFor(w, s, r, d))
  }

  /** Only the defect's status changed. */
  ghost predicate DefectOnly(w: World, next: World, d: Id) {
    && next == w.(defects := next.defects) && d in w.defects && d in next.defects
    && next.defects == w.defects[d := w.defects[d].(status := next.defects[d].status)]
  }

  lemma TransitionedDefect(w: World, d: Id, status: DefectStatus, next: World)
    requires Backlog.TransitionDefect(w, d, status) == Ok(next)
    ensures DefectOnly(w, next, d) && next.defects[d].status == status
  {
    hide DefectMoves;
  }

  lemma SameTouched(w: World, next: World, s: Scope, d: Id, r: Id, e: Id)
    requires DefectOnly(w, next, d)
    ensures RegressesDirectly(next, s, r, e) <==> RegressesDirectly(w, s, r, e)
    ensures RaisedFor(next, s, r, e) <==> RaisedFor(w, s, r, e)
    ensures ActiveRequirements(next, s.project) == ActiveRequirements(w, s.project)
  {
    forall t ensures TestsRequirement(next, s, r, t) <==> TestsRequirement(w, s, r, t) {
      hide LinksTo, CycleFits, Qualifies;
    }
    hide TestsRequirement, LinksTo;
  }

  /** A defect leaves the critical ones when it is closed or rejected and returns otherwise; a
      severe one affects the requirements it touches while it is open or in progress, and in any
      other status the requirements it alone affects are no longer counted. */
  lemma DefectMovesFigures(w: World, s: Scope, d: Id, status: DefectStatus, next: World)
    requires Backlog.TransitionDefect(w, d, status) == Ok(next)
    ensures var critical := w.defects[d].severity == Severity.Critical && w.defects[d].project == s.project;
      Counted(next, s, M10) ==
        if !critical then Counted(w, s, M10)
        else if status == DefectStatus.Closed || status == Rejected then Counted(w, s, M10) - {d}
        else Counted(w, s, M10) + {d}
    ensures !Severe(w, s.project, d) ==> Counted(next, s, M11) == Counted(w, s, M11)
    ensures Severe(w, s.project, d) && (status == DefectStatus.Open || status == DefectStatus.InProgress) ==>
              Counted(next, s, M11) == Counted(w, s, M11) + Touched(w, s, d)
    ensures Severe(w, s.project, d) && status != DefectStatus.Open && status != DefectStatus.InProgress ==>
              Counted(next, s, M11) ==
                set r | r in Counted(w, s, M11) && exists e :: e != d && Hot(w, s, e) && r in Touched(w, s, e)
  {
    hide Backlog.TransitionDefect, Counted;
    TransitionedDefect(w, d, status, next);
    CriticalMoves(w, next, s, d);
    hide DefectOnly;
    AffectedMoves(w, next, s, d);
  }

  lemma CriticalMoves(w: World, next: World, s: Scope, d: Id)
    requires DefectOnly(w, next, d)
    ensures var status := next.defects[d].status;
      Counted(next, s, M10) ==
        if w.defects[d].severity != Severity.Critical || w.defects[d].project != s.project then Counted(w, s, M10)
        else if status == DefectStatus.Closed || status == Rejected then Counted(w, s, M10) - {d}
        else Counted(w, s, M10) + {d}
  {}

  lemma AffectedMoves(w: World, next: World, s: Scope, d: Id)
    requires DefectOnly(w, next, d)
    ensures var status := next.defects[d].status;
      && (!Severe(w, s.project, d) ==> Counted(next, s, M11) == Counted(w, s, M11))
      && (Severe(w, s.project, d) && (status == DefectStatus.Open || status == DefectStatus.InProgress) ==>
            Counted(next, s, M11) == Counted(w, s, M11) + Touched(w, s, d))
      && (Severe(w, s.project, d) && status != DefectStatus.Open && status != DefectStatus.InProgress ==>
            Counted(next, s, M11) ==
              set r | r in Counted(w, s, M11) && exists e :: e != d && Hot(w, s, e) && r in Touched(w, s, e))
  {
    forall r ensures r in Counted(next, s, M11) <==>
        r in ActiveRequirements(w, s.project) && exists e :: Hot(next, s, e) && r in Touched(w, s, e)
    {
      AffectedIs(w, next, s, d, r);
    }
    forall r ensures r in Counted(w, s, M11) <==>
        r in ActiveRequirements(w, s.project) && exists e :: Hot(w, s, e) && r in Touched(w, s, e)
    {
      AffectedIsTouched(w, s, r);
    }
    forall e ensures e != d ==> (Hot(next, s, e) <==> Hot(w, s, e))
    ensures !Severe(w, s.project, d) ==> !Hot(next, s, d) && !Hot(w, s, d)
    ensures Severe(w, s.project, d) ==>
              (Hot(next, s, d) <==> next.defects[d].status == DefectStatus.Open
                                    || next.defects[d].status == DefectStatus.InProgress) {}
    forall e, r | r in Touched(w, s, e) ensures r in ActiveRequirements(w, s.project) {}
    hide Counted, Hot, Touched, ActiveRequirements, Severe, DefectOnly;
    var before, after := Counted(w, s, M11), Counted(next, s, M11);
    forall r | r in before && Hot(next, s, d) ensures r in after {
      var e :| Hot(w, s, e) && r in Touched(w, s, e);
      assert e != d ==> Hot(next, s, e);
    }
  }

  lemma AffectedIsTouched(w: World, s: Scope, r: Id)
    ensures r in Counted(w, s, M11) <==>
              r in ActiveRequirements(w, s.project) && exists e :: Hot(w, s, e) && r in Touched(w, s, e)
  {
    hide RegressesDirectly, RaisedFor, Hot, ActiveRequirements;
    assert r in Counted(w, s, M11) <==> r in ActiveRequirements(w, s.project) && Affected(w, s, r) by {
      RequirementsExist(w, s.project, r);
      hide Affected;
    }
    hide Counted;
    if Affected(w, s, r) && r in ActiveRequirements(w, s.project) {
      var e :| Hot(w, s, e) && (RegressesDirectly(w, s, r, e) || RaisedFor(w, s, r, e));
      assert r in Touched(w, s, e);
    }
  }

  lemma RequirementsExist(w: World, project: Id, r: Id)
    ensures r in ActiveRequirements(w, project) ==> r in w.requirements
  {}

  lemma AffectedIs(w: World, next: World, s: Scope, d: Id, r: Id)
    requires DefectOnly(w, next, d)
    ensures r in Counted(next, s, M11) <==>
              r in ActiveRequirements(w, s.project) && exists e :: Hot(next, s, e) && r in Touched(w, s, e)
  {
    AffectedIsTouched(next, s, r);
    hide Counted, Hot;
    forall e ensures r in Touched(next, s, e) <==> r in Touched(w, s, e) {
      SameTouched(w, next, s, d, r, e);
      hide RegressesDirectly, RaisedFor, ActiveRequirements, DefectOnly;
    }
    SameTouched(w, next, s, d, r, 0);
    hide Touched, ActiveRequirements, DefectOnly;
  }

  /** Only the pairs of attempt and defect changed, and by this one. */
  ghost predicate RaisedOnly(w: World, next: World, a: Id, d: Id) {
    && next == w.(raised := next.raised) && a in w.db.attempts
    && forall p :: p in next.raised <==> p in w.raised || p == (a, d)
  }

  lemma LinkedDefect(w: World, a: Id, d: Id, next: World)
    requires Backlog.LinkDefect(w, a, d) == Ok(next)
    ensures RaisedOnly(w, next, a, d)
  {}

  /** Raising a defect on an attempt puts it on the test of that attempt, and on no other. */
  lemma RaisedOnItsTest(w: World, a: Id, d: Id, next: World, t: Id, e: Id)
    requires RaisedOnly(w, next, a, d)
    ensures RaisedOn(next, t, e) <==> RaisedOn(w, t, e) || (e == d && t == w.db.attempts[a].testId)
  {
    if e == d && t == w.db.attempts[a].testId { assert (a, d) in next.raised; }
  }

  lemma SameTests(w: World, a: Id, d: Id, next: World, s: Scope, r: Id, t: Id, e: Id)
    requires RaisedOnly(w, next, a, d)
    ensures TestsRequirement(next, s, r, t) <==> TestsRequirement(w, s, r, t)
    ensures RegressesDirectly(next, s, r, e) <==> RegressesDirectly(w, s, r, e)
    ensures Hot(next, s, e) <==> Hot(w, s, e)
  {
    hide LinksTo, CycleFits;
  }

  /** A defect raised while it is severe and open adds to M-11 the active requirements that the
      test of the attempt tests; any other raising adds nothing. */
  lemma RaisingMovesFigures(w: World, s: Scope, a: Id, d: Id, next: World)
    requires Backlog.LinkDefect(w, a, d) == Ok(next)
    ensures var tested :=
              set r | r in ActiveRequirements(w, s.project) && TestsRequirement(w, s, r, w.db.attempts[a].testId);
            Counted(next, s, M11) == Counted(w, s, M11) + if Hot(w, s, d) then tested else {}
  {
    LinkedDefect(w, a, d, next);
    var t0 := w.db.attempts[a].testId;
    forall r
      ensures r in ActiveRequirements(next, s.project) <==> r in ActiveRequirements(w, s.project)
      ensures Affected(next, s, r) <==> Affected(w, s, r) || (Hot(w, s, d) && TestsRequirement(w, s, r, t0))
    {
      RaisingAffects(w, s, a, d, next, r);
    }
    AffectedCounted(w, s);
    AffectedCounted(next, s);
    hide Counted, Affected, ActiveRequirements, Hot, TestsRequirement, Backlog.LinkDefect;
  }

  lemma AffectedCounted(w: World, s: Scope)
    ensures forall r :: r in Counted(w, s, M11) <==> r in ActiveRequirements(w, s.project) && Affected(w, s, r)
  {
    hide Affected;
    forall r ensures r in ActiveRequirements(w, s.project) ==> r in w.requirements {
      RequirementsExist(w, s.project, r);
    }
  }

  lemma RaisingAffects(w: World, s: Scope, a: Id, d: Id, next: World, r: Id)
    requires RaisedOnly(w, next, a, d)
    ensures ActiveRequirements(next, s.project) == ActiveRequirements(w, s.project)
    ensures Affected(next, s, r) <==>
              Affected(w, s, r) || (Hot(w, s, d) && TestsRequirement(w, s, r, w.db.attempts[a].testId))
  {
    var t0 := w.db.attempts[a].testId;
    forall e
      ensures RaisedFor(next, s, r, e) <==> RaisedFor(w, s, r, e) || (e == d && TestsRequirement(w, s, r, t0))
      ensures RegressesDirectly(next, s, r, e) <==> RegressesDirectly(w, s, r, e)
      ensures Hot(next, s, e) <==> Hot(w, s, e)
    {
      RaisedForMore(w, s, a, d, next, r, e);
      SameTests(w, a, d, next, s, r, t0, e);
    }
    hide RaisedFor, TestsRequirement, RegressesDirectly, Hot;
    if Affected(w, s, r) {
      var e :| Hot(w, s, e) && (RegressesDirectly(w, s, r, e) || RaisedFor(w, s, r, e));
      assert Hot(next, s, e);
    }
    if Hot(w, s, d) && TestsRequirement(w, s, r, t0) { assert Hot(next, s, d) && RaisedFor(next, s, r, d); }
  }

  lemma RaisedForMore(w: World, s: Scope, a: Id, d: Id, next: World, r: Id, e: Id)
    requires RaisedOnly(w, next, a, d)
    ensures RaisedFor(next, s, r, e) <==>
              RaisedFor(w, s, r, e) || (e == d && TestsRequirement(w, s, r, w.db.attempts[a].testId))
  {
    var t0 := w.db.attempts[a].testId;
    forall t
      ensures RaisedOn(next, t, e) <==> RaisedOn(w, t, e) || (e == d && t == t0)
      ensures TestsRequirement(next, s, r, t) <==> TestsRequirement(w, s, r, t)
    {
      RaisedOnItsTest(w, a, d, next, t, e);
      SameTests(w, a, d, next, s, r, t, e);
    }
    hide RaisedOn, TestsRequirement, RaisedOnly;
    if RaisedFor(w, s, r, e) {
      var t :| TestsRequirement(w, s, r, t) && RaisedOn(w, t, e);
      assert TestsRequirement(next, s, r, t) && RaisedOn(next, t, e);
    }
    if e == d && TestsRequirement(w, s, r, t0) { assert TestsRequirement(next, s, r, t0) && RaisedOn(next, t0, e); }
  }

  /** A link from a defect to a requirement makes that defect touch it directly, and no other pair. */
  lemma LinkRegresses(w: World, project: Id, d: Id, r: Id, next: World)
    requires WorldInv(w)
    requires Backlog.CreateLink(w, project, Entity(DefectKind, d), Entity(RequirementKind, r)) == Ok(next)
    ensures forall s: Scope, x, e ::
              RegressesDirectly(next, s, x, e) <==>
                RegressesDirectly(w, s, x, e) || (s.project == project && x == r && e == d)
  {
    hide Inv, LinksOk, LiveOnceEach, EntityProject, Duplicates;
    assert w.next !in w.links;
    var link := next.links[w.next];
    forall s: Scope, x, e
      ensures RegressesDirectly(next, s, x, e) <==>
                RegressesDirectly(w, s, x, e) || (s.project == project && x == r && e == d)
    {
      if l :| l in w.links && LinksTo(w.links[l], s.project, Entity(DefectKind, e), Entity(RequirementKind, x)) {
        assert LinksTo(next.links[l], s.project, Entity(DefectKind, e), Entity(RequirementKind, x));
      }
      assert LinksTo(link, s.project, Entity(DefectKind, e), Entity(RequirementKind, x)) <==>
             s.project == project && x == r && e == d;
    }
  }

  /** A drilled row of M-11 names exactly the severe defects, open or in progress, that a live link
      of the project joins to the requirement, and those raised on an attempt at a test of it. */
  lemma DrilledViaExactly(w: World, s: Scope, r: Id, via: set<Via>, d: Id)
    requires DrillRow(r, ViaCell(via)) in DrillRows(w, s, M11)
    ensures var severe :=
              && Severe(w, s.project, d)
              && (w.defects[d].status == DefectStatus.Open || w.defects[d].status == DefectStatus.InProgress);
      && (Direct(d) in via <==>
            && severe
            && exists l :: l in w.links && w.links[l].project == s.project && !w.links[l].removed
                 && w.links[l].source == Entity(DefectKind, d) && w.links[l].target == Entity(RequirementKind, r))
      && (ThroughExecution(d) in via <==>
            && severe
            && exists a :: (a, d) in w.raised && a in w.db.attempts
                 && TestsRequirement(w, s, r, w.db.attempts[a].testId))
  {
    DrilledRow(w, s, M11, DrillRow(r, ViaCell(via)));
    hide DrillRows;
    hide TestsRequirement;
    if RaisedFor(w, s, r, d) {
      var t :| TestsRequirement(w, s, r, t) && RaisedOn(w, t, d);
      var p :| p in w.raised && p.1 == d && p.0 in w.db.attempts && w.db.attempts[p.0].testId == t;
      assert p == (p.0, d);
    }
    if a :| (a, d) in w.raised && a in w.db.attempts && TestsRequirement(w, s, r, w.db.attempts[a].testId) {
      assert RaisedOn(w, w.db.attempts[a].testId, d);
    }
  }

  // ------------------------------------------------------------------ requirements and what covers them

  /** A requirement is a subject of the coverage figures while it is active, and only then. */
  lemma StatusMovesSubjects(w: World, project: Id, r: Id, status: RequirementStatus, next: World)
    requires Backlog.TransitionRequirement(w, r, status) == Ok(next)
    ensures ActiveRequirements(next, project) ==
              if w.requirements[r].project != project then ActiveRequirements(w, project)
              else if status == RequirementStatus.Active then ActiveRequirements(w, project) + {r}
              else ActiveRequirements(w, project) - {r}
  {
    hide RequirementMoves;
  }

  /** A link from a requirement to a case makes that case cover it, and no other pair. */
  lemma LinkCovers(w: World, project: Id, r: Id, c: Id, next: World)
    requires WorldInv(w)
    requires Backlog.CreateLink(w, project, Entity(RequirementKind, r), Entity(CaseKind, c)) == Ok(next)
    ensures forall p, x, d ::
              IsCoveredBy(next, p, x, d) <==> IsCoveredBy(w, p, x, d) || (p == project && x == r && d == c)
  {
    hide Inv, LinksOk, LiveOnceEach, EntityProject, Duplicates;
    assert w.next !in w.links;
    var link := next.links[w.next];
    forall p, x, d
      ensures CoveredDirectly(next, p, x, d) <==> CoveredDirectly(w, p, x, d) || (p == project && x == r && d == c)
      ensures CoveredByScenario(next, x, d) <==> CoveredByScenario(w, x, d)
    {
      if l :| l in w.links && LinksTo(w.links[l], p, Entity(RequirementKind, x), Entity(CaseKind, d)) {
        assert LinksTo(next.links[l], p, Entity(RequirementKind, x), Entity(CaseKind, d));
      }
      assert LinksTo(link, p, Entity(RequirementKind, x), Entity(CaseKind, d)) <==> p == project && x == r && d == c;
    }
    hide CoveredDirectly, CoveredByScenario;
  }

  /** Taking it away again leaves what a scenario covers, and nothing by link: there is one live
      link for a pair. */
  lemma UnlinkUncovers(w: World, l: Id, next: World)
    requires WorldInv(w) && Backlog.RemoveLink(w, l) == Ok(next)
    requires w.links[l].source.kind.RequirementKind? && w.links[l].target.kind.CaseKind?
    ensures var link := w.links[l];
      forall p, x, d ::
        IsCoveredBy(next, p, x, d) <==>
          if p == link.project && x == link.source.id && d == link.target.id then CoveredByScenario(w, x, d)
          else IsCoveredBy(w, p, x, d)
  {
    hide Inv, LinksOk, RowIds;
    var link := w.links[l];
    forall p, x, d
      ensures CoveredDirectly(next, p, x, d) <==>
                CoveredDirectly(w, p, x, d) && !(p == link.project && x == link.source.id && d == link.target.id)
      ensures CoveredByScenario(next, x, d) <==> CoveredByScenario(w, x, d)
    {
      UnlinkedPair(w, l, next, p, x, d);
    }
    hide CoveredDirectly, CoveredByScenario, Backlog.RemoveLink;
  }

  lemma UnlinkedPair(w: World, l: Id, next: World, p: Id, x: Id, d: Id)
    requires LiveOnceEach(w) && Backlog.RemoveLink(w, l) == Ok(next)
    requires w.links[l].source.kind.RequirementKind? && w.links[l].target.kind.CaseKind?
    ensures CoveredDirectly(next, p, x, d) <==>
              CoveredDirectly(w, p, x, d)
              && !(p == w.links[l].project && x == w.links[l].source.id && d == w.links[l].target.id)
    ensures CoveredByScenario(next, x, d) <==> CoveredByScenario(w, x, d)
  {
    var source, target := Entity(RequirementKind, x), Entity(CaseKind, d);
    if m :| m in w.links && LinksTo(w.links[m], p, source, target) {
      if m == l {
        forall k | k in next.links ensures !LinksTo(next.links[k], p, source, target) {
          assert k != l && LinksTo(w.links[k], p, source, target) ==>
              Live(w, k) && Live(w, l) && SameEnds(w.links[k], w.links[l]);
        }
      } else {
        assert LinksTo(next.links[m], p, source, target);
        assert Live(w, l) && Live(w, m);
      }
    }
    if m :| m in next.links && LinksTo(next.links[m], p, source, target) {
      assert m != l && LinksTo(w.links[m], p, source, target);
      assert Live(w, l) && Live(w, m);
    }
  }

  /** Archiving a scenario takes away what it covers; restoring it gives that back. */
  lemma ScenarioCovers(w: World, sc: Id, archived: bool, next: World, x: Id, d: Id)
    requires Backlog.ArchiveScenario(w, sc, archived) == Ok(next)
    ensures forall p :: CoveredDirectly(next, p, x, d) <==> CoveredDirectly(w, p, x, d)
    ensures d in w.scenarioOf && w.scenarioOf[d] == sc && d in w.db.cases ==>
              (CoveredByScenario(next, x, d) <==> !archived && w.scenarios[sc].requirement == Some(x))
    ensures !(d in w.scenarioOf && w.scenarioOf[d] == sc) ==>
              (CoveredByScenario(next, x, d) <==> CoveredByScenario(w, x, d))
  {
    hide LinksTo;
  }

  // ------------------------------------------------------------------ automation

  /** Eligibility was decided when the case was made, from its automation status. */
  ghost predicate EligibleAsMade(cases: map<Id, Case>) {
    forall c :: c in cases ==> (cases[c].eligible <==> !cases[c].automation.NotApplicable?)
  }

  lemma AutomationStays(db: Db, now: Time, call: Call, next: Db)
    requires Inv(db) && Perform(db, now, call) == Ok(next) && EligibleAsMade(db.cases)
    ensures EligibleAsMade(next.cases)
  {
    hide Inv, Perform;
    if RepositoryCall(call) {
      RepositoryKeepsAutomation(db, now, call, next);
    } else {
      OtherTablesStay(db, now, call, next);
    }
  }

  lemma RepositoryKeepsAutomation(db: Db, now: Time, call: Call, next: Db)
    requires Inv(db) && RepositoryCall(call) && Perform(db, now, call) == Ok(next) && EligibleAsMade(db.cases)
    ensures EligibleAsMade(next.cases)
  {
    hide Inv, TC.CreateTestCase, TC.UpdateTestCase, TC.TransitionVersion, TC.TransitionLifecycle;
    match call
    case CreateTestCase(p, title, d, pre, steps, auto) => CreateWritesColumns(db, p, title, d, pre, steps, auto, next);
    case UpdateTestCase(c, expected, edit) => UpdateWritesColumns(db, c, expected, edit, next);
    case TransitionVersion(c, status, expected) => DecisionWrites(db, c, status, expected, next);
    case TransitionLifecycle(c, state, expected) => LifecycleWrites(db, c, state, expected, next);
  }

  lemma {:induction false} AutomationIsAsMade(run: Trail, n: nat)
    requires n <= |run.calls|
    ensures EligibleAsMade(run.At(n).cases)
  {
    hide Inv, Grows, Perform;
    if n == 0 {
      StartsEmpty(run);
    } else {
      AutomationIsAsMade(run, n - 1);
      NextAt(run, n - 1);
      NextBy(run, n - 1);
      hide EligibleAsMade;
      if run.Went(n - 1) {
        AutomationStays(run.At(n - 1), run.calls[n - 1].0, run.calls[n - 1].1, run.At(n));
      }
    }
  }

  /** In every reachable state M-12 is the automated among the active cases that are not marked as
      not applicable; the eligibility flag adds nothing. */
  lemma AutomationExactly(projects: set<Id>, calls: History, w: World, s: Scope, c: Id)
    requires w.db == Reached(projects, calls)
    ensures c in Base(w, s, M12) <==>
              && c in w.db.cases && w.db.cases[c].project == s.project && w.db.cases[c].lifecycle == Lifecycle.Active
              && w.db.cases[c].automation != NotApplicable
    ensures c in Counted(w, s, M12) <==>
              && c in w.db.cases && w.db.cases[c].project == s.project && w.db.cases[c].lifecycle == Lifecycle.Active
              && w.db.cases[c].automation == Automated
    ensures forall status ::
              DrillRow(c, AutomationCell(status)) in DrillRows(w, s, M12) <==>
                c in Base(w, s, M12) && status == w.db.cases[c].automation
  {
    var run := Trail(projects, calls);
    hide Reached;
    EndIsLast(run);
    AutomationIsAsMade(run, |calls|);
    forall status { DrilledRow(w, s, M12, DrillRow(c, AutomationCell(status))); }
    hide DrillRows;
  }

  /** What a figure is a share of: execution of M-01, coverage of the active requirements, which
      M-05 and M-09 make up, and pass coverage of M-06; the rest but M-03, M-12 and M-13 are counts. */
  lemma FiguresShareBases(w: World, s: Scope)
    ensures Summary(w, s, M02).denominator == Some(Summary(w, s, M01).numerator)
    ensures forall m :: m == M05 || m == M06 || m == M07 ==>
              Summary(w, s, m).denominator == Some(Summary(w, s, M05).numerator + Summary(w, s, M09).numerator)
    ensures Summary(w, s, M08).denominator == Some(Summary(w, s, M06).numerator)
    ensures forall m ::
              Summary(w, s, m).denominator.None? <==> m == M01 || m == M04 || m == M09 || m == M10 || m == M11
  {
    CoverageChain(w, s);
    assert Base(w, s, M02) == Counted(w, s, M01);
    assert forall m :: m == M05 || m == M06 || m == M07 ==> Base(w, s, m) == ActiveRequirements(w, s.project);
    hide Base, Counted, ActiveRequirements;
  }
}
