/** What the thirteen metrics of the report mean, as sets of rows, and how the summary and
    the drill-down relate (backend/app/domain/reporting.py). */
module Metrics {
  import opened Common
  import opened Tables
  import opened Backlog
  import opened Counting
  import opened Resolver
  import opened Traceability

  datatype Scope = Scope(
    project: Id, release: Option<Id>, plan: Option<Id>, cycle: Option<Id>,
    environment: Option<string>, build: Option<string>)

  function WholeProject(project: Id): Scope {
    Scope(project, None, None, None, None, None)
  }

  /** An empty string filters nothing, as the code tests the filter for truth. */
  predicate TextFits(filter: Option<string>, text: string) {
    filter.Some? && filter.value != "" ==> filter.value == text
  }

  predicate CycleFits(s: Scope, c: Id, cycle: Cycle) {
    && !cycle.status.Archived?
    && (s.cycle.Some? ==> s.cycle.value == c)
    && (s.plan.Some? ==> s.plan.value == cycle.context.plan)
    && (s.release.Some? ==> s.release == cycle.context.release)
    && TextFits(s.environment, cycle.context.environment)
    && TextFits(s.build, cycle.context.build)
  }

  predicate InScope(w: World, s: Scope, t: Id) {
    && t in w.db.tests
    && w.db.tests[t].project == s.project
    && !w.db.tests[t].removed
    && w.db.tests[t].cycleId in w.db.cycles
    && CycleFits(s, w.db.tests[t].cycleId, w.db.cycles[w.db.tests[t].cycleId])
  }

  ghost function ScopedTests(w: World, s: Scope): set<Id> {
    set t | t in w.db.tests && InScope(w, s, t)
  }

  ghost function ShownFor(w: World, t: Id): Verdict {
    if t in w.db.tests then Displayed(w.db, t) else NotRun
  }

  predicate Judged(v: Verdict) {
    v.Passed? || v.Failed? || v.Blocked?
  }

  predicate PassedOrSkipped(v: Verdict) {
    v.Passed? || v.Skipped?
  }

  // ------------------------------------------------------------------ requirements

  predicate Qualifies(w: World, c: Id) {
    && c in w.db.cases
    && (w.db.cases[c].lifecycle.Approved? || w.db.cases[c].lifecycle.Active?)
    && w.db.cases[c].approved.Some?
  }

  ghost function ActiveRequirements(w: World, project: Id): set<Id> {
    set r | r in w.requirements && w.requirements[r].project == project && w.requirements[r].status.Active?
  }

  predicate LinksTo(link: Link, project: Id, source: Entity, target: Entity) {
    link.project == project && !link.removed && link.source == source && link.target == target
  }

  ghost predicate CoveredDirectly(w: World, project: Id, r: Id, c: Id) {
    exists l :: l in w.links && LinksTo(w.links[l], project, Entity(RequirementKind, r), Entity(CaseKind, c))
  }

  predicate CoveredByScenario(w: World, r: Id, c: Id) {
    && c in w.db.cases && c in w.scenarioOf && w.scenarioOf[c] in w.scenarios
    && w.scenarios[w.scenarioOf[c]].requirement == Some(r)
    && !w.scenarios[w.scenarioOf[c]].archived
  }

  ghost predicate IsCoveredBy(w: World, project: Id, r: Id, c: Id) {
    CoveredDirectly(w, project, r, c) || CoveredByScenario(w, r, c)
  }

  /** A scoped test of a qualifying case that covers the requirement. */
  ghost predicate TestsRequirement(w: World, s: Scope, r: Id, t: Id) {
    InScope(w, s, t) && Qualifies(w, w.db.tests[t].caseId) && IsCoveredBy(w, s.project, r, w.db.tests[t].caseId)
  }

  ghost predicate Designed(w: World, s: Scope, r: Id) {
    exists c :: IsCoveredBy(w, s.project, r, c) && Qualifies(w, c)
  }

  ghost predicate IsPlanned(w: World, s: Scope, r: Id) {
    exists t :: TestsRequirement(w, s, r, t)
  }

  ghost predicate Executed(w: World, s: Scope, r: Id) {
    exists t :: TestsRequirement(w, s, r, t) && Terminal(ShownFor(w, t))
  }

  ghost predicate AllPassedOrSkipped(w: World, s: Scope, r: Id) {
    forall t :: TestsRequirement(w, s, r, t) ==> PassedOrSkipped(ShownFor(w, t))
  }

  ghost predicate SomePassed(w: World, s: Scope, r: Id) {
    exists t :: TestsRequirement(w, s, r, t) && ShownFor(w, t).Passed?
  }

  predicate QualifyingTest(w: World, s: Scope, t: Id) {
    InScope(w, s, t) && Qualifies(w, w.db.tests[t].caseId)
  }

  /** scope_all_green: some qualifying test passed, and every one passed or was skipped. */
  ghost predicate ScopeAllGreen(w: World, s: Scope) {
    && (exists t :: QualifyingTest(w, s, t) && ShownFor(w, t).Passed?)
    && (forall t :: QualifyingTest(w, s, t) ==> PassedOrSkipped(ShownFor(w, t)))
  }

  // ------------------------------------------------------------------ defects

  predicate CriticalOpen(w: World, s: Scope, d: Id) {
    d in w.defects && w.defects[d].project == s.project && w.defects[d].severity.Critical?
    && !w.defects[d].status.Closed? && !w.defects[d].status.Rejected?
  }

  predicate Hot(w: World, s: Scope, d: Id) {
    d in w.defects && w.defects[d].project == s.project
    && (w.defects[d].severity.Critical? || w.defects[d].severity.High?)
    && (w.defects[d].status.Open? || w.defects[d].status.InProgress?)
  }

  ghost predicate RegressesDirectly(w: World, s: Scope, r: Id, d: Id) {
    exists l :: l in w.links && LinksTo(w.links[l], s.project, Entity(DefectKind, d), Entity(RequirementKind, r))
  }

  predicate RaisedOn(w: World, t: Id, d: Id) {
    exists p :: p in w.raised && p.1 == d && p.0 in w.db.attempts && w.db.attempts[p.0].testId == t
  }

  ghost predicate RaisedFor(w: World, s: Scope, r: Id, d: Id) {
    exists t :: TestsRequirement(w, s, r, t) && RaisedOn(w, t, d)
  }

  ghost predicate Affected(w: World, s: Scope, r: Id) {
    exists d :: Hot(w, s, d) && (RegressesDirectly(w, s, r, d) || RaisedFor(w, s, r, d))
  }

  // ------------------------------------------------------------------ the summary

  datatype MetricId = M01 | M02 | M03 | M04 | M05 | M06 | M07 | M08 | M09 | M10 | M11 | M12 | M13

  /** A count has no denominator. */
  datatype Figure = Figure(numerator: nat, denominator: Option<nat>)

  predicate Automatable(w: World, s: Scope, c: Id) {
    c in w.db.cases && w.db.cases[c].project == s.project && w.db.cases[c].lifecycle.Active?
    && w.db.cases[c].eligible && !w.db.cases[c].automation.NotApplicable?
  }

  ghost function TestsWith(w: World, s: Scope, shown: Verdict -> bool): set<Id> {
    set t | t in ScopedTests(w, s) && shown(ShownFor(w, t))
  }

  ghost function Counted(w: World, s: Scope, m: MetricId): set<Id> {
    match m
    case M01 => ScopedTests(w, s)
    case M02 => TestsWith(w, s, v => Terminal(v))
    case M03 => TestsWith(w, s, (v: Verdict) => v.Passed?)
    case M04 => set t | t in ScopedTests(w, s) && !HasAttempt(w.db.attempts, t)
    case M05 => set r | r in ActiveRequirements(w, s.project) && Designed(w, s, r)
    case M06 => set r | r in ActiveRequirements(w, s.project) && IsPlanned(w, s, r)
    case M07 => set r | r in ActiveRequirements(w, s.project) && Executed(w, s, r)
    case M08 => set r | r in ActiveRequirements(w, s.project)
                        && ScopeAllGreen(w, s) && IsPlanned(w, s, r) && AllPassedOrSkipped(w, s, r)
    case M09 => set r | r in ActiveRequirements(w, s.project) && !Designed(w, s, r)
    case M10 => set d | d in w.defects && CriticalOpen(w, s, d)
    case M11 => set r | r in ActiveRequirements(w, s.project) && Affected(w, s, r)
    case M12 => set c | c in w.db.cases && Automatable(w, s, c) && w.db.cases[c].automation.Automated?
    case M13 => ResolvableLinks(w, s.project)
  }

  predicate IsRatio(m: MetricId) {
    m in {M02, M03, M05, M06, M07, M08, M12, M13}
  }

  ghost function Base(w: World, s: Scope, m: MetricId): set<Id> {
    match m
    case M03 => TestsWith(w, s, v => Judged(v))
    case M05 => ActiveRequirements(w, s.project)
    case M06 => ActiveRequirements(w, s.project)
    case M07 => ActiveRequirements(w, s.project)
    case M08 => set r | r in ActiveRequirements(w, s.project) && IsPlanned(w, s, r)
    case M12 => set c | c in w.db.cases && Automatable(w, s, c)
    case M13 => LiveLinks(w, s.project)
    case M02 => ScopedTests(w, s)
    case _ => Counted(w, s, m)
  }

  ghost function Summary(w: World, s: Scope, m: MetricId): Figure {
    Figure(|Counted(w, s, m)|, if IsRatio(m) then Some(|Base(w, s, m)|) else None)
  }

  // ------------------------------------------------------------------ the drill-down

  datatype Via = Direct(defect: Id) | ThroughExecution(defect: Id)

  /** The cell of a drilled row that says how it counts. */
  datatype Cell =
    | Plain
    | ResultCell(result: Verdict)
    | StatusCell(counted: bool)
    | ViaCell(via: set<Via>)
    | AutomationCell(automation: Automation)
    | ResolvableCell(resolvable: bool)

  datatype DrillRow = DrillRow(subject: Id, cell: Cell)

  ghost function ViaOf(w: World, s: Scope, r: Id): set<Via> {
    (set d | d in w.defects && Hot(w, s, d) && RegressesDirectly(w, s, r, d) :: Direct(d))
    + (set d | d in w.defects && Hot(w, s, d) && RaisedFor(w, s, r, d) :: ThroughExecution(d))
  }

  ghost function StatusIn(w: World, s: Scope, m: MetricId, r: Id): bool {
    match m
    case M05 => Designed(w, s, r)
    case M06 => IsPlanned(w, s, r)
    case M07 => Executed(w, s, r)
    case M08 => IsPlanned(w, s, r) && AllPassedOrSkipped(w, s, r) && SomePassed(w, s, r)
    case _ => !Designed(w, s, r)
  }

  /** The one row the drill-down may show for a subject. */
  ghost function RowFor(w: World, s: Scope, m: MetricId, x: Id): DrillRow {
    match m
    case M01 => DrillRow(x, ResultCell(ShownFor(w, x)))
    case M02 => DrillRow(x, ResultCell(ShownFor(w, x)))
    case M03 => DrillRow(x, ResultCell(ShownFor(w, x)))
    case M04 => DrillRow(x, Plain)
    case M10 => DrillRow(x, Plain)
    case M11 => DrillRow(x, ViaCell(ViaOf(w, s, x)))
    case M12 => DrillRow(x, AutomationCell(if x in w.db.cases then w.db.cases[x].automation else NotApplicable))
    case M13 => DrillRow(x, ResolvableCell(x in w.links && Resolves(w, w.links[x])))
    case _ => DrillRow(x, StatusCell(StatusIn(w, s, m, x)))
  }

  ghost function Drilled(w: World, s: Scope, m: MetricId): set<Id> {
    match m
    case M01 => ScopedTests(w, s)
    case M04 => Counted(w, s, M04)
    case M09 => set r | r in ActiveRequirements(w, s.project) && StatusIn(w, s, M09, r)
    case M10 => Counted(w, s, M10)
    case M11 => set r | r in ActiveRequirements(w, s.project) && ViaOf(w, s, r) != {}
    case _ => Base(w, s, m)
  }

  ghost function DrillRows(w: World, s: Scope, m: MetricId): set<DrillRow> {
    set x | x in Drilled(w, s, m) :: RowFor(w, s, m, x)
  }

  /** How a reader of the rows gets the figure back: split them by their cell. */
  predicate CountsTowards(m: MetricId, cell: Cell) {
    match cell
    case Plain => true
    case ViaCell(_) => true
    case ResultCell(v) => if m.M02? then Terminal(v) else if m.M03? then v.Passed? else true
    case StatusCell(counted) => counted
    case AutomationCell(a) => a.Automated?
    case ResolvableCell(ok) => ok
  }

  ghost function Reproduced(rows: set<DrillRow>, m: MetricId): Figure {
    Figure(|set row | row in rows && CountsTowards(m, row.cell)|, if IsRatio(m) then Some(|rows|) else None)
  }

  // ------------------------------------------------------------------ agreement

  ghost predicate Agrees(w: World, s: Scope, m: MetricId) {
    Reproduced(DrillRows(w, s, m), m) == Summary(w, s, m)
  }

  /** The subjects whose row counts. */
  ghost function CountedSubjects(w: World, s: Scope, m: MetricId): set<Id> {
    set x | x in Drilled(w, s, m) && CountsTowards(m, RowFor(w, s, m, x).cell)
  }

  lemma SubjectIs(w: World, s: Scope, m: MetricId, x: Id)
    ensures RowFor(w, s, m, x).subject == x
  {}

  lemma RowsAreDistinct(w: World, s: Scope, m: MetricId)
    ensures |DrillRows(w, s, m)| == |Drilled(w, s, m)|
    ensures |set row | row in DrillRows(w, s, m) && CountsTowards(m, row.cell)| == |CountedSubjects(w, s, m)|
  {
    hide RowFor, Drilled, CountsTowards;
    ImagesAreDistinct(w, s, m, Drilled(w, s, m), DrillRows(w, s, m));
    ImagesAreDistinct(w, s, m, CountedSubjects(w, s, m),
                      set row | row in DrillRows(w, s, m) && CountsTowards(m, row.cell));
  }

  lemma ImagesAreDistinct(w: World, s: Scope, m: MetricId, xs: set<Id>, rows: set<DrillRow>)
    requires forall row :: row in rows ==> exists x :: x in xs && row == RowFor(w, s, m, x)
    requires forall x :: x in xs ==> RowFor(w, s, m, x) in rows
    ensures |rows| == |xs|
  {
    hide RowFor;
    var subject := (row: DrillRow) => row.subject;
    forall x | x in xs ensures RowFor(w, s, m, x).subject == x { SubjectIs(w, s, m, x); }
    forall x | x in xs ensures exists r :: r in rows && subject(r) == x {
      assert RowFor(w, s, m, x) in rows;
    }
    DistinctRows(rows, subject, xs);
  }

  /** For every metric but pass coverage, in every database state and every scope, the
      drilled rows give back the summary's numerator and denominator. */
  lemma DrillDownAgrees(w: World, s: Scope, m: MetricId)
    requires !m.M08?
    ensures Agrees(w, s, m)
  {
    RowsAreDistinct(w, s, m);
    AgreeingRows(w, s, m);
    hide DrillRows, CountsTowards, Drilled, Counted, Base, CountedSubjects;
  }

  lemma AgreeingRows(w: World, s: Scope, m: MetricId)
    requires !m.M08?
    ensures CountedSubjects(w, s, m) == Counted(w, s, m)
    ensures IsRatio(m) ==> Drilled(w, s, m) == Base(w, s, m)
  {
    hide ShownFor, Designed, IsPlanned, Executed, Affected, ViaOf, Resolves, InScope, Hot, HasAttempt, Automatable,
      CriticalOpen, Judged, Terminal;
    if m.M03? { PassedIsJudged(); }
    if m.M11? {
      forall r ensures ViaOf(w, s, r) != {} <==> Affected(w, s, r) { ViaIsAffected(w, s, r); }
    }
  }

  lemma PassedIsJudged()
    ensures forall v: Verdict :: v.Passed? ==> Judged(v)
  {}

  lemma ViaIsAffected(w: World, s: Scope, r: Id)
    ensures ViaOf(w, s, r) != {} <==> Affected(w, s, r)
  {
    hide RegressesDirectly, RaisedFor;
    if Affected(w, s, r) {
      var d :| Hot(w, s, d) && (RegressesDirectly(w, s, r, d) || RaisedFor(w, s, r, d));
      assert Direct(d) in ViaOf(w, s, r) || ThroughExecution(d) in ViaOf(w, s, r);
    }
    if ViaOf(w, s, r) != {} {
      var via :| via in ViaOf(w, s, r);
    }
  }

  /** All of a requirement's scoped tests were skipped. */
  ghost predicate AllSkipped(w: World, s: Scope, r: Id) {
    IsPlanned(w, s, r) && forall t :: TestsRequirement(w, s, r, t) ==> ShownFor(w, t).Skipped?
  }

  ghost predicate EarnedAlone(w: World, s: Scope, r: Id) {
    AllPassedOrSkipped(w, s, r) && SomePassed(w, s, r)
  }

  /** In a green scope no requirement is all skipped; otherwise none passed on its own. */
  ghost predicate NoneStandsOut(w: World, s: Scope) {
    if ScopeAllGreen(w, s)
    then !exists r :: r in ActiveRequirements(w, s.project) && AllSkipped(w, s, r)
    else !exists r :: r in ActiveRequirements(w, s.project) && EarnedAlone(w, s, r)
  }

  /** Pass coverage: the summary asks the whole scope to be green, the drill-down only the
      requirement's own tests, and it also wants one of them passed.  The two agree exactly
      when, in a green scope, no requirement is all skipped, and otherwise no requirement
      passed on its own. */
  lemma PassCoverageAgreesExactly(w: World, s: Scope)
    ensures Agrees(w, s, M08) <==> NoneStandsOut(w, s)
  {
    RowsAreDistinct(w, s, M08);
    hide DrillRows, InScope, Qualifies, IsCoveredBy, ShownFor;
    var alone := CountedSubjects(w, s, M08);
    assert alone == set r | r in ActiveRequirements(w, s.project) && IsPlanned(w, s, r) && EarnedAlone(w, s, r);
    assert Drilled(w, s, M08) == Base(w, s, M08);
    if ScopeAllGreen(w, s) {
      assert alone <= Counted(w, s, M08);
      SubsetSize(alone, Counted(w, s, M08));
      forall r | r in ActiveRequirements(w, s.project) && IsPlanned(w, s, r)
        ensures r in Counted(w, s, M08) && (r !in alone <==> AllSkipped(w, s, r))
      {
        GreenRequirement(w, s, r);
      }
    } else {
      assert Counted(w, s, M08) == {};
      assert |alone| == 0 <==> alone == {};
      forall r | r in ActiveRequirements(w, s.project) && EarnedAlone(w, s, r) ensures r in alone {
        var t :| TestsRequirement(w, s, r, t) && ShownFor(w, t).Passed?;
        assert IsPlanned(w, s, r);
      }
    }
  }

  lemma GreenRequirement(w: World, s: Scope, r: Id)
    requires ScopeAllGreen(w, s) && IsPlanned(w, s, r)
    ensures AllPassedOrSkipped(w, s, r)
    ensures !SomePassed(w, s, r) <==> AllSkipped(w, s, r)
  {}

  /** A requirement whose scoped tests were all skipped counts as passed in the summary
      exactly when the scope is green; the drill-down never counts it. */
  lemma AllSkippedCountsExactly(w: World, s: Scope, r: Id)
    requires r in ActiveRequirements(w, s.project) && AllSkipped(w, s, r)
    ensures r in Counted(w, s, M08) <==> ScopeAllGreen(w, s)
    ensures DrillRow(r, StatusCell(false)) in DrillRows(w, s, M08)
  {
    hide InScope, Qualifies, IsCoveredBy, ShownFor, ScopeAllGreen, ActiveRequirements;
    assert RowFor(w, s, M08, r) == DrillRow(r, StatusCell(false)) by { hide TestsRequirement; }
    assert r in Drilled(w, s, M08);
  }

  // ------------------------------------------------------------------ chains and conservation

  /** Pass coverage is all or nothing. */
  lemma PassCoverageIsAllOrNothing(w: World, s: Scope)
    ensures Summary(w, s, M08).numerator == 0
            || Some(Summary(w, s, M08).numerator) == Summary(w, s, M08).denominator
    ensures Some(Summary(w, s, M08).numerator) == Summary(w, s, M08).denominator <==>
              ScopeAllGreen(w, s) || Base(w, s, M08) == {}
  {
    hide InScope, Qualifies, IsCoveredBy, ShownFor, TestsRequirement;
    if ScopeAllGreen(w, s) {
      forall r | r in Base(w, s, M08) ensures r in Counted(w, s, M08) { GreenRequirement(w, s, r); }
      assert Counted(w, s, M08) == Base(w, s, M08);
    } else {
      assert Counted(w, s, M08) == {};
      assert |Base(w, s, M08)| == 0 <==> Base(w, s, M08) == {};
    }
  }

  /** Every pass-covered requirement was executed, every executed one planned, every planned
      one designed; and designed and uncovered requirements are all of them. */
  lemma CoverageChain(w: World, s: Scope)
    ensures Counted(w, s, M08) <= Counted(w, s, M07) <= Counted(w, s, M06) == Base(w, s, M08) <= Counted(w, s, M05)
    ensures Summary(w, s, M08).numerator <= Summary(w, s, M07).numerator <= Summary(w, s, M06).numerator
    ensures Summary(w, s, M08).denominator == Some(Summary(w, s, M06).numerator)
    ensures Summary(w, s, M06).numerator <= Summary(w, s, M05).numerator
    ensures Summary(w, s, M05).numerator + Summary(w, s, M09).numerator == |ActiveRequirements(w, s.project)|
  {
    CoverageSets(w, s);
    hide Counted, Base, ActiveRequirements;
    SubsetSize(Counted(w, s, M08), Counted(w, s, M07));
    SubsetSize(Counted(w, s, M07), Counted(w, s, M06));
    SubsetSize(Counted(w, s, M06), Counted(w, s, M05));
  }

  lemma CoverageSets(w: World, s: Scope)
    ensures Counted(w, s, M08) <= Counted(w, s, M07) <= Counted(w, s, M06) == Base(w, s, M08) <= Counted(w, s, M05)
    ensures Counted(w, s, M05) + Counted(w, s, M09) == ActiveRequirements(w, s.project)
    ensures Counted(w, s, M05) !! Counted(w, s, M09)
  {}

  /** A test with a terminal result has an attempt, so completed and not-run tests never
      overlap. */
  lemma CompletedAndNotRun(w: World, s: Scope)
    ensures Counted(w, s, M02) !! Counted(w, s, M04)
    ensures Summary(w, s, M02).numerator + Summary(w, s, M04).numerator <= Summary(w, s, M01).numerator
    ensures Some(Summary(w, s, M01).numerator) == Summary(w, s, M02).denominator
  {
    hide InScope;
    forall t | t in Counted(w, s, M02) ensures t !in Counted(w, s, M04) {
      AuthoritativeExists(w.db.attempts, t);
    }
    hide ShownFor, HasAttempt;
    SubsetSize(Counted(w, s, M02) + Counted(w, s, M04), ScopedTests(w, s));
  }
}
