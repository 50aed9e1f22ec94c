/** compute_all and drill_down of backend/app/domain/reporting.py as they are written: dicts
    filled in loops and rows collected from them.  Each is proved against the sets in Metrics,
    whatever order the queries return their rows in. */
module Reporting {
  import opened Common
  import opened Tables
  import opened Backlog
  import opened Counting
  import opened Resolver
  import opened Traceability
  import opened Metrics

  /** What the queries of one report return. */
  datatype Queries = Queries(
    tests: seq<Id>, requirements: seq<Id>, attempts: Id -> seq<Row>,
    covering: Id -> seq<Id>, critical: seq<Id>, hot: seq<Id>,
    direct: Id -> seq<Id>, raised: Id -> seq<Id>,
    automatable: seq<Id>, links: seq<Id>)

  ghost predicate TestQueries(w: World, s: Scope, q: Queries) {
    Enumerates(q.tests, ScopedTests(w, s)) && AttemptQueries(w, q.attempts)
  }

  ghost predicate AttemptQueries(w: World, attempts: Id -> seq<Row>) {
    forall t :: t in w.db.tests ==> RowsOf(attempts(t), w.db.attempts, t)
  }

  ghost predicate RequirementQueries(w: World, s: Scope, q: Queries) {
    && Enumerates(q.requirements, ActiveRequirements(w, s.project))
    && forall r, c :: c in q.covering(r) <==> IsCoveredBy(w, s.project, r, c)
  }

  ghost predicate DefectQueries(w: World, s: Scope, q: Queries) {
    && Enumerates(q.critical, Counted(w, s, M10))
    && (forall d :: d in q.hot <==> Hot(w, s, d))
    && (forall r, d :: d in q.direct(r) <==> RegressesDirectly(w, s, r, d))
    && (forall t, d :: d in q.raised(t) <==> RaisedOn(w, t, d))
  }

  ghost predicate OtherQueries(w: World, s: Scope, q: Queries) {
    Enumerates(q.automatable, Base(w, s, M12)) && Enumerates(q.links, LiveLinks(w, s.project))
  }

  ghost predicate Answers(w: World, s: Scope, q: Queries) {
    TestQueries(w, s, q) && RequirementQueries(w, s, q) && DefectQueries(w, s, q) && OtherQueries(w, s, q)
  }

  // ------------------------------------------------------------------ the dicts both build

  /** The displayed result of each listed test, one resolver call a test. */
  method Results(w: World, tests: seq<Id>, attempts: Id -> seq<Row>) returns (results: map<Id, Verdict>)
    requires AttemptQueries(w, attempts) && forall t :: t in tests ==> t in w.db.tests
    ensures results.Keys == (set t | t in tests)
    ensures forall t :: t in tests ==> results[t] == ShownFor(w, t)
  {
    hide Displayed, RowsOf, Authoritative, HasOpenAttempt;
    results := map[];
    for i := 0 to |tests|
      invariant forall t :: t in results <==> t in tests[..i]
      invariant forall t :: t in tests[..i] ==> results[t] == ShownFor(w, t)
    {
      assert tests[..i + 1] == tests[..i] + [tests[i]];
      assert RowsOf(attempts(tests[i]), w.db.attempts, tests[i]);
      var r := ResolveCycleTestResult(w.db, tests[i], attempts(tests[i]));
      results := results[tests[i] := r.displayed];
    }
    assert tests[..|tests|] == tests;
  }

  /** The scoped tests of the qualifying cases that cover a requirement. */
  method RequirementTests(w: World, s: Scope, q: Queries, byCase: map<Id, seq<Id>>, r: Id) returns (out: seq<Id>)
    requires RequirementQueries(w, s, q) && TestQueries(w, s, q) && GroupedByCase(w, s, byCase)
    ensures forall t :: t in out <==> TestsRequirement(w, s, r, t)
  {
    hide Qualifies, IsCoveredBy, InScope;
    out := [];
    var ids := q.covering(r);
    for i := 0 to |ids|
      invariant forall t :: t in out <==>
        t in ScopedTests(w, s) && w.db.tests[t].caseId in ids[..i] && Qualifies(w, w.db.tests[t].caseId)
    {
      assert ids[..i + 1] == ids[..i] + [ids[i]];
      if Qualifies(w, ids[i]) && ids[i] in byCase {
        out := out + byCase[ids[i]];
      }
    }
    assert ids[..|ids|] == ids;
    assert forall t :: t in ScopedTests(w, s) <==> InScope(w, s, t) by { ScopedIsInScope(w, s); }
  }

  lemma ScopedIsInScope(w: World, s: Scope)
    ensures forall t :: t in ScopedTests(w, s) <==> InScope(w, s, t)
    ensures forall t :: t in ScopedTests(w, s) ==> t in w.db.tests
  {}

  ghost predicate GroupedByCase(w: World, s: Scope, byCase: map<Id, seq<Id>>) {
    && (forall c, t :: c in byCase && t in byCase[c] ==> t in ScopedTests(w, s) && w.db.tests[t].caseId == c)
    && (forall t :: t in ScopedTests(w, s) ==> w.db.tests[t].caseId in byCase && t in byCase[w.db.tests[t].caseId])
  }

  method ByCase(w: World, s: Scope, q: Queries) returns (byCase: map<Id, seq<Id>>)
    requires TestQueries(w, s, q)
    ensures GroupedByCase(w, s, byCase)
  {
    hide InScope;
    var key := t => if t in w.db.tests then w.db.tests[t].caseId else 0;
    byCase := GroupBy(q.tests, key);
    forall t | t in ScopedTests(w, s) ensures w.db.tests[t].caseId in byCase {
      assert t in q.tests && key(t) == w.db.tests[t].caseId;
    }
  }

  ghost predicate ScopedFor(w: World, s: Scope, reqs: seq<Id>, scoped: map<Id, seq<Id>>) {
    forall r :: r in reqs ==> r in scoped && forall t :: t in scoped[r] <==> TestsRequirement(w, s, r, t)
  }

  /** The scoped tests of every active requirement. */
  method ScopedTestsByRequirement(w: World, s: Scope, q: Queries) returns (scoped: map<Id, seq<Id>>)
    requires TestQueries(w, s, q) && RequirementQueries(w, s, q)
    ensures ScopedFor(w, s, q.requirements, scoped)
  {
    hide TestsRequirement, TestQueries, RequirementQueries, GroupedByCase;
    var byCase := ByCase(w, s, q);
    scoped := map[];
    var reqs := q.requirements;
    for i := 0 to |reqs|
      invariant ScopedFor(w, s, reqs[..i], scoped)
    {
      assert reqs[..i + 1] == reqs[..i] + [reqs[i]];
      var out := RequirementTests(w, s, q, byCase, reqs[i]);
      scoped := scoped[reqs[i] := out];
    }
    assert reqs[..|reqs|] == reqs;
  }

  // ------------------------------------------------------------------ predicates over the dicts

  predicate AnyTerminal(results: map<Id, Verdict>, tests: seq<Id>) {
    exists t :: t in tests && t in results && Terminal(results[t])
  }

  predicate AnyPassed(results: map<Id, Verdict>, tests: seq<Id>) {
    exists t :: t in tests && t in results && results[t].Passed?
  }

  predicate AllGreen(results: map<Id, Verdict>, tests: seq<Id>) {
    forall t :: t in tests ==> t in results && PassedOrSkipped(results[t])
  }

  predicate AnyQualifies(w: World, cases: seq<Id>) {
    exists c :: c in cases && Qualifies(w, c)
  }

  /** What the dicts say of a requirement is what the rows say of it. */
  lemma DictsSpeakTrue(w: World, s: Scope, results: map<Id, Verdict>, tests: seq<Id>, r: Id)
    requires forall t :: t in tests <==> TestsRequirement(w, s, r, t)
    requires forall t :: InScope(w, s, t) ==> t in results && results[t] == ShownFor(w, t)
    ensures tests != [] <==> IsPlanned(w, s, r)
    ensures AnyTerminal(results, tests) <==> Executed(w, s, r)
    ensures AnyPassed(results, tests) <==> SomePassed(w, s, r)
    ensures AllGreen(results, tests) <==> AllPassedOrSkipped(w, s, r)
  {
    assert forall t :: t in tests ==> InScope(w, s, t) by { hide IsCoveredBy, Qualifies; }
    hide InScope, Qualifies, IsCoveredBy, ShownFor, TestsRequirement;
    if tests != [] { assert tests[0] in tests; }
  }

  lemma DictsSpeakForAll(w: World, s: Scope, results: map<Id, Verdict>, reqs: seq<Id>, scoped: map<Id, seq<Id>>)
    requires ScopedResultsOk(w, s, results) && ScopedFor(w, s, reqs, scoped)
    ensures forall r :: r in reqs ==>
      && r in scoped
      && (scoped[r] != [] <==> IsPlanned(w, s, r))
      && (AnyTerminal(results, scoped[r]) <==> Executed(w, s, r))
      && (AnyPassed(results, scoped[r]) <==> SomePassed(w, s, r))
      && (AllGreen(results, scoped[r]) <==> AllPassedOrSkipped(w, s, r))
  {
    hide InScope, TestsRequirement, AnyTerminal, AnyPassed, AllGreen, IsPlanned, Executed, SomePassed,
      AllPassedOrSkipped;
    forall r | r in reqs { DictsSpeakTrue(w, s, results, scoped[r], r); }
  }

  // ------------------------------------------------------------------ compute_all

  datatype Metric = Metric(id: MetricId, figure: Figure)

  const ORDER: seq<MetricId> := [M01, M02, M03, M04, M05, M06, M07, M08, M09, M10, M11, M12, M13]

  method ComputeAll(w: World, s: Scope, q: Queries) returns (metrics: seq<Metric>)
    requires Answers(w, s, q)
    ensures |metrics| == 13
    ensures forall i :: 0 <= i < 13 ==> metrics[i] == Metric(ORDER[i], Summary(w, s, ORDER[i]))
  {
    hide Summary, TestQueries, RequirementQueries, DefectQueries, OtherQueries;
    var results := ScopedResults(w, s, q);
    var scoped := ScopedTestsByRequirement(w, s, q);
    var m01, m02, m03, m04 := TestMetrics(w, s, q, results);
    var m05, m09 := DesignMetrics(w, s, q);
    var m06, m07, m08 := CoverageMetrics(w, s, q, results, scoped);
    var m10, m11 := DefectMetrics(w, s, q, scoped);
    var m12, m13 := RepositoryMetrics(w, s, q);
    metrics := [Metric(M01, m01), Metric(M02, m02), Metric(M03, m03), Metric(M04, m04), Metric(M05, m05),
                Metric(M06, m06), Metric(M07, m07), Metric(M08, m08), Metric(M09, m09), Metric(M10, m10),
                Metric(M11, m11), Metric(M12, m12), Metric(M13, m13)];
  }

  ghost predicate ScopedResultsOk(w: World, s: Scope, results: map<Id, Verdict>) {
    && (forall t :: t in results <==> InScope(w, s, t))
    && (forall t :: t in results ==> results[t] == ShownFor(w, t))
  }

  method ScopedResults(w: World, s: Scope, q: Queries) returns (results: map<Id, Verdict>)
    requires TestQueries(w, s, q)
    ensures ScopedResultsOk(w, s, results)
  {
    hide InScope, ShownFor, AttemptQueries;
    assert forall t :: t in ScopedTests(w, s) <==> InScope(w, s, t) by { ScopedIsInScope(w, s); }
    results := Results(w, q.tests, q.attempts);
  }

  method TestMetrics(w: World, s: Scope, q: Queries, results: map<Id, Verdict>)
    returns (m01: Figure, m02: Figure, m03: Figure, m04: Figure)
    requires TestQueries(w, s, q) && ScopedResultsOk(w, s, results)
    ensures m01 == Summary(w, s, M01) && m02 == Summary(w, s, M02)
    ensures m03 == Summary(w, s, M03) && m04 == Summary(w, s, M04)
  {
    hide InScope, ScopedTests, AttemptQueries, ShownFor, HasAttempt, Terminal, Judged, ScopedResultsOk;
    EnumerationSize(q.tests, ScopedTests(w, s));
    m01 := Figure(|q.tests|, None);
    var terminal := CountResults(w, s, q, results, (v: Verdict) => Terminal(v));
    m02 := Figure(terminal, Some(|q.tests|));
    var passed := CountResults(w, s, q, results, (v: Verdict) => v.Passed?);
    var failed := CountResults(w, s, q, results, (v: Verdict) => v.Failed?);
    var blocked := CountResults(w, s, q, results, (v: Verdict) => v.Blocked?);
    m03 := Figure(passed, Some(passed + failed + blocked));
    JudgedSplit(w, s);
    var notRun := CountAmong(q.tests, t => !HasAttempt(w.db.attempts, t), ScopedTests(w, s), Counted(w, s, M04));
    m04 := Figure(notRun, None);
    hide TestsWith;
  }

  method CountResults(w: World, s: Scope, q: Queries, results: map<Id, Verdict>, shown: Verdict -> bool)
    returns (n: nat)
    requires TestQueries(w, s, q) && ScopedResultsOk(w, s, results)
    ensures n == |TestsWith(w, s, shown)|
  {
    hide InScope, ShownFor, AttemptQueries;
    assert forall t :: t in ScopedTests(w, s) <==> InScope(w, s, t) by { ScopedIsInScope(w, s); }
    n := CountAmong(q.tests, t => t in results && shown(results[t]), ScopedTests(w, s), TestsWith(w, s, shown));
  }

  lemma JudgedSplit(w: World, s: Scope)
    ensures |Counted(w, s, M03)| == |TestsWith(w, s, (v: Verdict) => v.Passed?)|
    ensures |Base(w, s, M03)| == |TestsWith(w, s, (v: Verdict) => v.Passed?)|
                                 + |TestsWith(w, s, (v: Verdict) => v.Failed?)|
                                 + |TestsWith(w, s, (v: Verdict) => v.Blocked?)|
    ensures |Counted(w, s, M02)| == |TestsWith(w, s, (v: Verdict) => Terminal(v))|
  {
    hide ScopedTests, ShownFor, Terminal;
    var passed := TestsWith(w, s, (v: Verdict) => v.Passed?);
    var failed := TestsWith(w, s, (v: Verdict) => v.Failed?);
    var blocked := TestsWith(w, s, (v: Verdict) => v.Blocked?);
    assert Base(w, s, M03) == passed + failed + blocked;
    assert Counted(w, s, M03) == passed;
    assert Counted(w, s, M02) == TestsWith(w, s, (v: Verdict) => Terminal(v));
  }

  method DesignMetrics(w: World, s: Scope, q: Queries) returns (m05: Figure, m09: Figure)
    requires RequirementQueries(w, s, q)
    ensures m05 == Summary(w, s, M05) && m09 == Summary(w, s, M09)
  {
    hide IsCoveredBy, Qualifies;
    ghost var all := ActiveRequirements(w, s.project);
    EnumerationSize(q.requirements, all);
    var designed := CountAmong(q.requirements, r => AnyQualifies(w, q.covering(r)), all, Counted(w, s, M05));
    m05 := Figure(designed, Some(|q.requirements|));
    var uncovered := CountAmong(q.requirements, r => !AnyQualifies(w, q.covering(r)), all, Counted(w, s, M09));
    m09 := Figure(uncovered, None);
  }

  method CoverageMetrics(w: World, s: Scope, q: Queries, results: map<Id, Verdict>, scoped: map<Id, seq<Id>>)
    returns (m06: Figure, m07: Figure, m08: Figure)
    requires TestQueries(w, s, q) && RequirementQueries(w, s, q)
    requires ScopedResultsOk(w, s, results) && ScopedFor(w, s, q.requirements, scoped)
    ensures m06 == Summary(w, s, M06) && m07 == Summary(w, s, M07) && m08 == Summary(w, s, M08)
  {
    hide AnyTerminal, AllGreen, AnyPassed, IsPlanned, Executed, AllPassedOrSkipped, SomePassed, ScopeAllGreen,
      ScopedResultsOk, ScopedFor, TestQueries;
    var green := AllScopeGreen(w, s, q, results);
    DictsSpeakForAll(w, s, results, q.requirements, scoped);
    ghost var all := ActiveRequirements(w, s.project);
    EnumerationSize(q.requirements, all);
    var planned := CountAmong(q.requirements, r => r in scoped && scoped[r] != [], all, Counted(w, s, M06));
    m06 := Figure(planned, Some(|q.requirements|));
    var executed := CountAmong(
      q.requirements, r => r in scoped && AnyTerminal(results, scoped[r]), all, Counted(w, s, M07));
    m07 := Figure(executed, Some(|q.requirements|));
    var passed := CountAmong(
      q.requirements, r => green && r in scoped && scoped[r] != [] && AllGreen(results, scoped[r]),
      all, Counted(w, s, M08));
    assert Base(w, s, M08) == Counted(w, s, M06);
    m08 := Figure(passed, Some(planned));
  }

  /** scope_all_green */
  method AllScopeGreen(w: World, s: Scope, q: Queries, results: map<Id, Verdict>) returns (green: bool)
    requires TestQueries(w, s, q) && ScopedResultsOk(w, s, results)
    ensures green <==> ScopeAllGreen(w, s)
  {
    hide ShownFor, AttemptQueries, CycleFits;
    var shown: seq<Id> := [];
    for i := 0 to |q.tests|
      invariant forall t :: t in shown <==> t in q.tests[..i] && QualifyingTest(w, s, t)
    {
      assert q.tests[..i + 1] == q.tests[..i] + [q.tests[i]];
      assert q.tests[i] in q.tests && InScope(w, s, q.tests[i]);
      if Qualifies(w, w.db.tests[q.tests[i]].caseId) { shown := shown + [q.tests[i]]; }
    }
    assert q.tests[..|q.tests|] == q.tests;
    green := shown != [] && AllGreen(results, shown) && AnyPassed(results, shown);
    GreenIsGreen(w, s, results, shown);
  }

  lemma GreenIsGreen(w: World, s: Scope, results: map<Id, Verdict>, shown: seq<Id>)
    requires ScopedResultsOk(w, s, results) && forall t :: t in shown <==> QualifyingTest(w, s, t)
    ensures (shown != [] && AllGreen(results, shown) && AnyPassed(results, shown)) <==> ScopeAllGreen(w, s)
  {}

  predicate Overlaps(a: seq<Id>, b: seq<Id>) {
    exists d :: d in a && d in b
  }

  /** The search over one requirement: direct links first, then the defects its tests raised. */
  method IsAffected(w: World, s: Scope, q: Queries, tests: seq<Id>, r: Id) returns (hit: bool)
    requires DefectQueries(w, s, q) && forall t :: t in tests <==> TestsRequirement(w, s, r, t)
    ensures hit <==> Affected(w, s, r)
  {
    hide Hot, RegressesDirectly, RaisedOn, TestsRequirement;
    if Overlaps(q.direct(r), q.hot) { return true; }
    for i := 0 to |tests|
      invariant forall k, d :: 0 <= k < i && d in q.hot ==> !RaisedOn(w, tests[k], d)
    {
      assert tests[i] in tests;
      if Overlaps(q.raised(tests[i]), q.hot) {
        var d :| d in q.raised(tests[i]) && d in q.hot;
        assert RaisedFor(w, s, r, d);
        return true;
      }
    }
    return false;
  }

  method DefectMetrics(w: World, s: Scope, q: Queries, scoped: map<Id, seq<Id>>) returns (m10: Figure, m11: Figure)
    requires DefectQueries(w, s, q) && RequirementQueries(w, s, q) && ScopedFor(w, s, q.requirements, scoped)
    ensures m10 == Summary(w, s, M10) && m11 == Summary(w, s, M11)
  {
    hide Affected, CriticalOpen, TestsRequirement;
    EnumerationSize(q.critical, Counted(w, s, M10));
    m10 := Figure(|q.critical|, None);
    var affected: set<Id> := {};
    var reqs := q.requirements;
    for i := 0 to |reqs|
      invariant affected == set r | r in reqs[..i] && Affected(w, s, r)
    {
      assert reqs[..i + 1] == reqs[..i] + [reqs[i]];
      assert reqs[i] in q.requirements;
      var hit := IsAffected(w, s, q, scoped[reqs[i]], reqs[i]);
      if hit { affected := affected + {reqs[i]}; }
    }
    assert reqs[..|reqs|] == reqs;
    assert affected == Counted(w, s, M11);
    m11 := Figure(|affected|, None);
  }

  method RepositoryMetrics(w: World, s: Scope, q: Queries) returns (m12: Figure, m13: Figure)
    requires OtherQueries(w, s, q)
    ensures m12 == Summary(w, s, M12) && m13 == Summary(w, s, M13)
  {
    hide EntityProject;
    EnumerationSize(q.automatable, Base(w, s, M12));
    EnumerationSize(q.links, LiveLinks(w, s.project));
    var automated := CountAmong(
      q.automatable, c => c in w.db.cases && w.db.cases[c].automation.Automated?, Base(w, s, M12), Counted(w, s, M12));
    m12 := Figure(automated, Some(|q.automatable|));
    var resolvable := CountAmong(
      q.links, l => l in w.links && EntityProject(w, w.links[l].source) == Some(s.project)
                    && EntityProject(w, w.links[l].target) == Some(s.project),
      LiveLinks(w, s.project), Counted(w, s, M13));
    m13 := Figure(resolvable, Some(|q.links|));
  }

  // ------------------------------------------------------------------ drill_down

  /** The rows of the members of `xs` that the metric shows, each once. */
  ghost predicate Built(w: World, s: Scope, m: MetricId, xs: seq<Id>, rows: seq<DrillRow>) {
    && (forall row :: row in rows ==> row.subject in xs && row.subject in Drilled(w, s, m)
                                      && row == RowFor(w, s, m, row.subject))
    && (forall x :: x in xs && x in Drilled(w, s, m) ==> RowFor(w, s, m, x) in rows)
    && NoDuplicates(rows)
  }

  lemma RowAdded(w: World, s: Scope, m: MetricId, xs: seq<Id>, x: Id, rows: seq<DrillRow>)
    requires Built(w, s, m, xs, rows) && x !in xs
    ensures x in Drilled(w, s, m) ==> Built(w, s, m, xs + [x], rows + [RowFor(w, s, m, x)])
    ensures x !in Drilled(w, s, m) ==> Built(w, s, m, xs + [x], rows)
  {
    hide Drilled, RowFor;
    SubjectIs(w, s, m, x);
  }

  lemma AllBuilt(w: World, s: Scope, m: MetricId, xs: seq<Id>, rows: seq<DrillRow>)
    requires Built(w, s, m, xs, rows) && forall x :: x in Drilled(w, s, m) ==> x in xs
    ensures Enumerates(rows, DrillRows(w, s, m))
  {}

  method DrillDown(w: World, s: Scope, q: Queries, m: MetricId) returns (rows: seq<DrillRow>)
    requires Answers(w, s, q)
    ensures Enumerates(rows, DrillRows(w, s, m))
  {
    hide TestQueries, RequirementQueries, DefectQueries, OtherQueries, DrillRows, Enumerates;
    if m.M01? || m.M02? || m.M03? || m.M04? {
      rows := DrillTests(w, s, q, m);
    } else if m.M10? {
      rows := DrillDefects(w, s, q);
    } else if m.M11? {
      rows := DrillAffected(w, s, q);
    } else if m.M12? || m.M13? {
      rows := DrillRepository(w, s, q, m);
    } else {
      rows := DrillRequirements(w, s, q, m);
    }
  }

  method DrillTests(w: World, s: Scope, q: Queries, m: MetricId) returns (rows: seq<DrillRow>)
    requires TestQueries(w, s, q) && (m.M01? || m.M02? || m.M03? || m.M04?)
    ensures Enumerates(rows, DrillRows(w, s, m))
  {
    hide Built, InScope, ShownFor, AttemptQueries, HasAttempt, Judged, DrillRows;
    assert forall t :: t in ScopedTests(w, s) <==> InScope(w, s, t) by { ScopedIsInScope(w, s); }
    var results := ScopedResults(w, s, q);
    rows := [];
    assert Built(w, s, m, q.tests[..0], rows) by { NothingBuilt(w, s, m); }
    for i := 0 to |q.tests|
      invariant Built(w, s, m, q.tests[..i], rows)
    {
      var t := q.tests[i];
      assert t in q.tests && q.tests[..i + 1] == q.tests[..i] + [t];
      RowAdded(w, s, m, q.tests[..i], t, rows);
      if m.M04? {
        if !HasAttempt(w.db.attempts, t) { rows := rows + [DrillRow(t, Plain)]; }
      } else if !m.M03? || Judged(results[t]) {
        rows := rows + [DrillRow(t, ResultCell(results[t]))];
      }
    }
    assert q.tests[..|q.tests|] == q.tests;
    AllBuilt(w, s, m, q.tests, rows);
  }

  lemma NothingBuilt(w: World, s: Scope, m: MetricId)
    ensures Built(w, s, m, [], [])
  {}

  method DrillRequirements(w: World, s: Scope, q: Queries, m: MetricId) returns (rows: seq<DrillRow>)
    requires TestQueries(w, s, q) && RequirementQueries(w, s, q)
    requires m.M05? || m.M06? || m.M07? || m.M08? || m.M09?
    ensures Enumerates(rows, DrillRows(w, s, m))
  {
    hide Built, AnyTerminal, AnyPassed, AllGreen, IsPlanned, Executed, SomePassed, AllPassedOrSkipped, Qualifies,
      ScopedResultsOk, ScopedFor, TestQueries, DrillRows, IsCoveredBy;
    var results := ScopedResults(w, s, q);
    var scoped := ScopedTestsByRequirement(w, s, q);
    DictsSpeakForAll(w, s, results, q.requirements, scoped);
    var reqs := q.requirements;
    rows := [];
    assert Built(w, s, m, reqs[..0], rows) by { NothingBuilt(w, s, m); }
    for i := 0 to |reqs|
      invariant Built(w, s, m, reqs[..i], rows)
    {
      var r := reqs[i];
      assert r in reqs && reqs[..i + 1] == reqs[..i] + [r];
      RowAdded(w, s, m, reqs[..i], r, rows);
      var qualifying := AnyQualifies(w, q.covering(r));
      var counted :=
        if m.M05? then qualifying
        else if m.M06? then scoped[r] != []
        else if m.M07? then AnyTerminal(results, scoped[r])
        else if m.M08? then scoped[r] != [] && AllGreen(results, scoped[r]) && AnyPassed(results, scoped[r])
        else !qualifying;
      if m.M08? && scoped[r] == [] { continue; }
      if m.M09? && !counted { continue; }
      rows := rows + [DrillRow(r, StatusCell(counted))];
    }
    assert reqs[..|reqs|] == reqs;
    AllBuilt(w, s, m, reqs, rows);
  }

  method DrillDefects(w: World, s: Scope, q: Queries) returns (rows: seq<DrillRow>)
    requires DefectQueries(w, s, q)
    ensures Enumerates(rows, DrillRows(w, s, M10))
  {
    hide Built, CriticalOpen, DrillRows;
    rows := [];
    assert Built(w, s, M10, q.critical[..0], rows) by { NothingBuilt(w, s, M10); }
    for i := 0 to |q.critical|
      invariant Built(w, s, M10, q.critical[..i], rows)
    {
      var d := q.critical[i];
      assert d in q.critical && q.critical[..i + 1] == q.critical[..i] + [d];
      RowAdded(w, s, M10, q.critical[..i], d, rows);
      rows := rows + [DrillRow(d, Plain)];
    }
    assert q.critical[..|q.critical|] == q.critical;
    AllBuilt(w, s, M10, q.critical, rows);
  }

  /** Every hot defect linked to the requirement, or raised by an attempt at its tests. */
  method CollectVia(w: World, s: Scope, q: Queries, tests: seq<Id>, r: Id) returns (via: set<Via>)
    requires DefectQueries(w, s, q) && forall t :: t in tests <==> TestsRequirement(w, s, r, t)
    ensures via == ViaOf(w, s, r)
  {
    hide Hot, RegressesDirectly, RaisedOn, TestsRequirement;
    var direct := set d | d in q.direct(r) && d in q.hot :: Direct(d);
    var through: set<Via> := {};
    for i := 0 to |tests|
      invariant through == set t, d | t in tests[..i] && d in q.raised(t) && d in q.hot :: ThroughExecution(d)
    {
      assert tests[..i + 1] == tests[..i] + [tests[i]];
      var more := set d | d in q.raised(tests[i]) && d in q.hot :: ThroughExecution(d);
      through := through + more;
    }
    assert tests[..|tests|] == tests;
    via := direct + through;
    ViaCollected(w, s, q, tests, r, through);
  }

  lemma ViaCollected(w: World, s: Scope, q: Queries, tests: seq<Id>, r: Id, through: set<Via>)
    requires DefectQueries(w, s, q) && forall t :: t in tests <==> TestsRequirement(w, s, r, t)
    requires through == set t, d | t in tests && d in q.raised(t) && d in q.hot :: ThroughExecution(d)
    ensures (set d | d in q.direct(r) && d in q.hot :: Direct(d)) + through == ViaOf(w, s, r)
  {}

  method DrillAffected(w: World, s: Scope, q: Queries) returns (rows: seq<DrillRow>)
    requires TestQueries(w, s, q) && RequirementQueries(w, s, q) && DefectQueries(w, s, q)
    ensures Enumerates(rows, DrillRows(w, s, M11))
  {
    hide Built, ViaOf, TestQueries, DefectQueries, DrillRows, TestsRequirement, IsCoveredBy;
    var scoped := ScopedTestsByRequirement(w, s, q);
    var reqs := q.requirements;
    rows := [];
    assert Built(w, s, M11, reqs[..0], rows) by { NothingBuilt(w, s, M11); }
    for i := 0 to |reqs|
      invariant Built(w, s, M11, reqs[..i], rows)
    {
      var r := reqs[i];
      assert r in reqs && reqs[..i + 1] == reqs[..i] + [r];
      RowAdded(w, s, M11, reqs[..i], r, rows);
      var via := CollectVia(w, s, q, scoped[r], r);
      if via != {} { rows := rows + [DrillRow(r, ViaCell(via))]; }
    }
    assert reqs[..|reqs|] == reqs;
    AllBuilt(w, s, M11, reqs, rows);
  }

  method DrillRepository(w: World, s: Scope, q: Queries, m: MetricId) returns (rows: seq<DrillRow>)
    requires OtherQueries(w, s, q) && (m.M12? || m.M13?)
    ensures Enumerates(rows, DrillRows(w, s, m))
  {
    hide Built, EntityProject, DrillRows;
    var xs := if m.M12? then q.automatable else q.links;
    rows := [];
    assert Built(w, s, m, xs[..0], rows) by { NothingBuilt(w, s, m); }
    for i := 0 to |xs|
      invariant Built(w, s, m, xs[..i], rows)
    {
      var x := xs[i];
      assert x in xs && xs[..i + 1] == xs[..i] + [x];
      RowAdded(w, s, m, xs[..i], x, rows);
      if m.M12? {
        rows := rows + [DrillRow(x, AutomationCell(w.db.cases[x].automation))];
      } else {
        var ok := EntityProject(w, w.links[x].source) == Some(s.project)
                  && EntityProject(w, w.links[x].target) == Some(s.project);
        rows := rows + [DrillRow(x, ResolvableCell(ok))];
      }
    }
    assert xs[..|xs|] == xs;
    AllBuilt(w, s, m, xs, rows);
  }
}
