/** Execution progress by cycle, by release and by day (cycle_breakdown, release_overview and
    execution_trend in backend/app/domain/reporting.py): the parts add up to the whole. */
module Progress {
  import opened Common
  import opened Tables
  import opened Evidence
  import opened Runs
  import opened Backlog
  import opened Counting
  import opened Keys
  import opened Ordering
  import opened Resolver
  import opened Register
  import opened Metrics
  import opened Traceability
  import opened Reporting

  // ------------------------------------------------------------------ one row a cycle

  datatype CycleRow = CycleRow(
    cycle: Id, scoped: nat, terminal: nat, passed: nat, failed: nat, blocked: nat, notRun: nat,
    completion: Option<real>, passRate: Option<real>)

  /** No ratio of an empty whole. */
  function Ratio(part: nat, whole: nat): Option<real> {
    if whole == 0 then None else Some(part as real / whole as real)
  }

  function MakeRow(c: Id, scoped: nat, terminal: nat, passed: nat, failed: nat, blocked: nat, notRun: nat): CycleRow {
    CycleRow(c, scoped, terminal, passed, failed, blocked, notRun,
             Ratio(terminal, scoped), Ratio(passed, passed + failed + blocked))
  }

  predicate Unrun(v: Verdict) {
    v.NotRun? || v.RetestPending?
  }

  function CycleOf(w: World, t: Id): Id {
    if t in w.db.tests then w.db.tests[t].cycleId else 0
  }

  /** The scoped tests of one cycle that show such a result. */
  ghost function CycleTestsWith(w: World, s: Scope, c: Id, shown: Verdict -> bool): set<Id> {
    set t | t in ScopedTests(w, s) && CycleOf(w, t) == c && shown(ShownFor(w, t))
  }

  ghost function CycleRowFor(w: World, s: Scope, c: Id): CycleRow {
    MakeRow(c,
      |CycleTestsWith(w, s, c, (v: Verdict) => true)|,
      |CycleTestsWith(w, s, c, (v: Verdict) => Terminal(v))|,
      |CycleTestsWith(w, s, c, (v: Verdict) => v.Passed?)|,
      |CycleTestsWith(w, s, c, (v: Verdict) => v.Failed?)|,
      |CycleTestsWith(w, s, c, (v: Verdict) => v.Blocked?)|,
      |CycleTestsWith(w, s, c, (v: Verdict) => Unrun(v))|)
  }

  ghost function CyclesInScope(w: World, s: Scope): set<Id> {
    set t | t in ScopedTests(w, s) :: CycleOf(w, t)
  }

  /** One row for each cycle with a scoped test, in some order. */
  ghost predicate Breakdown(w: World, s: Scope, rows: seq<CycleRow>) {
    && Enumerates(Cycles(rows), CyclesInScope(w, s))
    && forall i :: 0 <= i < |rows| ==> rows[i] == CycleRowFor(w, s, rows[i].cycle)
  }

  function Cycles(rows: seq<CycleRow>): seq<Id> {
    seq(|rows|, i requires 0 <= i < |rows| => rows[i].cycle)
  }

  /** How many tests of one cycle show such a result. */
  method CountShown(
    w: World, s: Scope, c: Id, tests: seq<Id>, results: map<Id, Verdict>, shown: Verdict -> bool) returns (n: nat)
    requires NoDuplicates(tests) && forall t :: t in tests <==> t in ScopedTests(w, s) && CycleOf(w, t) == c
    requires forall t :: t in tests ==> t in results && results[t] == ShownFor(w, t)
    ensures n == |CycleTestsWith(w, s, c, shown)|
  {
    hide ScopedTests, ShownFor, CycleOf;
    n := CountAmong(tests, t => t in results && shown(results[t]), (set t | t in tests), CycleTestsWith(w, s, c, shown));
  }

  method OneCycle(w: World, s: Scope, c: Id, tests: seq<Id>, attempts: Id -> seq<Row>) returns (row: CycleRow)
    requires AttemptQueries(w, attempts)
    requires NoDuplicates(tests) && forall t :: t in tests <==> t in ScopedTests(w, s) && CycleOf(w, t) == c
    ensures row == CycleRowFor(w, s, c)
  {
    assert forall t :: t in tests ==> t in w.db.tests by { hide InScope; }
    hide ScopedTests, ShownFor, CycleOf, Terminal, Unrun, CycleTestsWith, AttemptQueries, Ratio;
    var results := Results(w, tests, attempts);
    var scoped := CountShown(w, s, c, tests, results, (v: Verdict) => true);
    var terminal := CountShown(w, s, c, tests, results, (v: Verdict) => Terminal(v));
    var passed := CountShown(w, s, c, tests, results, (v: Verdict) => v.Passed?);
    var failed := CountShown(w, s, c, tests, results, (v: Verdict) => v.Failed?);
    var blocked := CountShown(w, s, c, tests, results, (v: Verdict) => v.Blocked?);
    var notRun := CountShown(w, s, c, tests, results, (v: Verdict) => Unrun(v));
    hide MakeRow;
    row := MakeRow(c, scoped, terminal, passed, failed, blocked, notRun);
  }

  /** The rows stand in the order of the cycles' keys. */
  ghost predicate InKeyOrder(rows: seq<CycleRow>, keyOf: Id -> string) {
    forall i, j :: 0 <= i < j < |rows| ==> !TextLess(keyOf(rows[j].cycle), keyOf(rows[i].cycle))
  }

  method CycleBreakdown(w: World, s: Scope, tests: seq<Id>, attempts: Id -> seq<Row>, keyOf: Id -> string)
    returns (rows: seq<CycleRow>)
    requires Enumerates(tests, ScopedTests(w, s)) && AttemptQueries(w, attempts)
    ensures Breakdown(w, s, rows) && InKeyOrder(rows, keyOf)
  {
    hide Breakdown, ScopedTests, AttemptQueries, Enumerates, TextLess;
    var unsorted := CycleRows(w, s, tests, attempts);
    KeyOrderIsWeak(keyOf);
    rows := SortBy(unsorted, (a: CycleRow, b: CycleRow) => TextLess(keyOf(a.cycle), keyOf(b.cycle)));
    SortedBreakdown(w, s, unsorted, rows);
  }

  lemma KeyOrderIsWeak(keyOf: Id -> string)
    ensures WeakOrder((a: CycleRow, b: CycleRow) => TextLess(keyOf(a.cycle), keyOf(b.cycle)))
  {
    hide TextLess;
    var less := (a: CycleRow, b: CycleRow) => TextLess(keyOf(a.cycle), keyOf(b.cycle));
    forall a, b ensures less(a, b) ==> !less(b, a) { TextTotal(keyOf(a.cycle), keyOf(b.cycle)); }
    forall a, b, c | NotAfter(less, a, b) && NotAfter(less, b, c) ensures NotAfter(less, a, c) {
      TextNotAfter(keyOf(a.cycle), keyOf(b.cycle), keyOf(c.cycle));
    }
  }

  lemma TextNotAfter(a: string, b: string, c: string)
    requires !TextLess(b, a) && !TextLess(c, b)
    ensures !TextLess(c, a)
  {
    TextTotal(a, b);
    TextTotal(b, c);
    TextTotal(a, c);
    if TextLess(a, b) && TextLess(b, c) { TextTransitive(a, b, c); }
    hide TextLess;
  }

  lemma SortedBreakdown(w: World, s: Scope, rows: seq<CycleRow>, sorted: seq<CycleRow>)
    requires Breakdown(w, s, rows) && multiset(sorted) == multiset(rows)
    ensures Breakdown(w, s, sorted)
  {
    hide CycleRowFor, CyclesInScope;
    var all := set row | row in rows;
    RowsDistinct(rows);
    SortedEnumerates(rows, sorted, all);
    forall i | 0 <= i < |sorted| ensures sorted[i] == CycleRowFor(w, s, sorted[i].cycle) {
      assert sorted[i] in rows;
    }
    SameCycles(rows, sorted);
    SameCycles(sorted, rows);
    forall i, j | 0 <= i < j < |sorted| ensures Cycles(sorted)[i] != Cycles(sorted)[j] {
      assert sorted[i] == CycleRowFor(w, s, sorted[i].cycle) && sorted[j] == CycleRowFor(w, s, sorted[j].cycle);
    }
  }

  lemma RowsDistinct(rows: seq<CycleRow>)
    requires NoDuplicates(Cycles(rows))
    ensures NoDuplicates(rows)
  {
    forall i, j | 0 <= i < j < |rows| ensures rows[i] != rows[j] {
      assert Cycles(rows)[i] != Cycles(rows)[j];
    }
  }

  lemma SameCycles(rows: seq<CycleRow>, others: seq<CycleRow>)
    requires forall row :: row in rows <==> row in others
    ensures forall c :: c in Cycles(rows) ==> c in Cycles(others)
  {
    forall c | c in Cycles(rows) ensures c in Cycles(others) {
      var i :| 0 <= i < |rows| && Cycles(rows)[i] == c;
      assert rows[i] in others;
      var j :| 0 <= j < |others| && others[j] == rows[i];
      assert Cycles(others)[j] == c;
    }
  }

  /** The rows in whatever order the groups come. */
  method CycleRows(w: World, s: Scope, tests: seq<Id>, attempts: Id -> seq<Row>) returns (rows: seq<CycleRow>)
    requires Enumerates(tests, ScopedTests(w, s)) && AttemptQueries(w, attempts)
    ensures Breakdown(w, s, rows)
  {
    hide ScopedTests, CycleRowFor, CycleOf, CyclesInScope, AttemptQueries, Grouped;
    var byCycle := GroupBy(tests, (t: Id) => CycleOf(w, t));
    GroupsAreCycles(w, s, tests, byCycle);
    hide Enumerates;
    var left := byCycle.Keys;
    rows := [];
    while left != {}
      invariant left <= byCycle.Keys && NoDuplicates(Cycles(rows))
      invariant forall c :: c in Cycles(rows) <==> c in byCycle && c !in left
      invariant forall i :: 0 <= i < |rows| ==> rows[i] == CycleRowFor(w, s, rows[i].cycle)
      decreases |left|
    {
      var c :| c in left;
      var row := OneCycle(w, s, c, byCycle[c], attempts);
      assert row.cycle == c by { CycleOfRow(w, s, c); }
      assert Cycles(rows + [row]) == Cycles(rows) + [c];
      rows := rows + [row];
      left := left - {c};
    }
    ListedCycles(rows, byCycle.Keys);
  }

  lemma ListedCycles(rows: seq<CycleRow>, cs: set<Id>)
    requires NoDuplicates(Cycles(rows)) && forall c :: c in Cycles(rows) <==> c in cs
    ensures Enumerates(Cycles(rows), cs)
  {}

  /** The groups are the cycles in scope, each with its scoped tests. */
  lemma GroupsAreCycles(w: World, s: Scope, tests: seq<Id>, byCycle: map<Id, seq<Id>>)
    requires Enumerates(tests, ScopedTests(w, s)) && Grouped(byCycle, tests, (t: Id) => CycleOf(w, t))
    ensures byCycle.Keys == CyclesInScope(w, s)
    ensures forall c :: c in byCycle ==> NoDuplicates(byCycle[c])
    ensures forall c, t :: c in byCycle ==> (t in byCycle[c] <==> t in ScopedTests(w, s) && CycleOf(w, t) == c)
  {
    hide ScopedTests, CycleOf;
    var key := (t: Id) => CycleOf(w, t);
    forall c ensures c in byCycle <==> c in CyclesInScope(w, s) {
      if c in CyclesInScope(w, s) {
        var t :| t in ScopedTests(w, s) && CycleOf(w, t) == c;
        assert t in tests && key(t) == c;
      }
    }
    forall c | c in byCycle ensures GroupOf(byCycle[c], tests, key, c) {}
  }

  lemma CycleOfRow(w: World, s: Scope, c: Id)
    ensures CycleRowFor(w, s, c).cycle == c
  {}

  // ------------------------------------------------------------------ rows add up

  ghost function Column(rows: seq<CycleRow>, field: CycleRow -> nat): seq<nat> {
    seq(|rows|, i requires 0 <= i < |rows| => field(rows[i]))
  }

  /** A column that counts tests by their result adds up, over the cycles, to the count over
      the whole scope. */
  lemma ColumnAddsUp(w: World, s: Scope, rows: seq<CycleRow>, field: CycleRow -> nat, shown: Verdict -> bool)
    requires Breakdown(w, s, rows)
    requires forall c :: field(CycleRowFor(w, s, c)) == |CycleTestsWith(w, s, c, shown)|
    ensures Sum(Column(rows, field)) == |TestsWith(w, s, shown)|
  {
    hide ScopedTests, ShownFor, CycleOf, CycleRowFor;
    var all := TestsWith(w, s, shown);
    var key := t => CycleOf(w, t);
    var cs := Cycles(rows);
    FibresPartition(all, key, cs);
    forall i | 0 <= i < |rows| ensures Column(rows, field)[i] == FibreSizes(all, key, cs)[i] {
      assert rows[i] == CycleRowFor(w, s, cs[i]);
      assert Fibre(all, key, cs[i]) == CycleTestsWith(w, s, cs[i], shown);
    }
    assert Column(rows, field) == FibreSizes(all, key, cs);
    forall t | t in all ensures key(t) in cs { assert key(t) in CyclesInScope(w, s); }
    assert Covered(all, key, cs) == all;
  }

  /** The rows of the breakdown add up to M-01, M-02 and M-03 of the same scope. */
  lemma BreakdownAddsUp(w: World, s: Scope, rows: seq<CycleRow>)
    requires Breakdown(w, s, rows)
    ensures Sum(Column(rows, (r: CycleRow) => r.scoped)) == Summary(w, s, M01).numerator
    ensures Sum(Column(rows, (r: CycleRow) => r.terminal)) == Summary(w, s, M02).numerator
    ensures Sum(Column(rows, (r: CycleRow) => r.passed)) == Summary(w, s, M03).numerator
    ensures Some(Sum(Column(rows, (r: CycleRow) => r.passed)) + Sum(Column(rows, (r: CycleRow) => r.failed))
                 + Sum(Column(rows, (r: CycleRow) => r.blocked))) == Summary(w, s, M03).denominator
  {
    hide Breakdown, CycleTestsWith, Terminal, Sum, Column;
    ColumnAddsUp(w, s, rows, (r: CycleRow) => r.scoped, (v: Verdict) => true);
    ColumnAddsUp(w, s, rows, (r: CycleRow) => r.terminal, (v: Verdict) => Terminal(v));
    ColumnAddsUp(w, s, rows, (r: CycleRow) => r.passed, (v: Verdict) => v.Passed?);
    ColumnAddsUp(w, s, rows, (r: CycleRow) => r.failed, (v: Verdict) => v.Failed?);
    ColumnAddsUp(w, s, rows, (r: CycleRow) => r.blocked, (v: Verdict) => v.Blocked?);
    JudgedSplit(w, s);
    EveryTest(w, s);
    hide ScopedTests, TestsWith;
  }

  lemma EveryTest(w: World, s: Scope)
    ensures TestsWith(w, s, (v: Verdict) => true) == ScopedTests(w, s)
  {}

  /** In every reachable state each scoped test of a cycle is either terminal or not run. */
  lemma BreakdownPartitions(projects: set<Id>, calls: History, w: World, s: Scope, c: Id)
    requires w.db == Reached(projects, calls)
    ensures var row := CycleRowFor(w, s, c);
      row.terminal + row.notRun == row.scoped && row.passed + row.failed + row.blocked <= row.terminal
  {
    hide ScopedTests, ShownFor, CycleOf, Reached;
    forall t | t in ScopedTests(w, s) ensures Terminal(ShownFor(w, t)) || Unrun(ShownFor(w, t)) {
      TestIsSettled(projects, calls, w, s, t);
    }
    hide Terminal, Unrun;
    RowSplits(w, s, c);
  }

  lemma TestIsSettled(projects: set<Id>, calls: History, w: World, s: Scope, t: Id)
    requires w.db == Reached(projects, calls) && t in ScopedTests(w, s)
    ensures Terminal(ShownFor(w, t)) || Unrun(ShownFor(w, t))
  {
    hide Reached, Displayed, CycleFits;
    DisplayedIsSettled(projects, calls, t);
  }

  lemma RowSplits(w: World, s: Scope, c: Id)
    requires forall t :: t in ScopedTests(w, s) ==> Terminal(ShownFor(w, t)) || Unrun(ShownFor(w, t))
    ensures var row := CycleRowFor(w, s, c);
      row.terminal + row.notRun == row.scoped && row.passed + row.failed + row.blocked <= row.terminal
  {
    hide ScopedTests, ShownFor, CycleOf;
    var terminal := CycleTestsWith(w, s, c, (v: Verdict) => Terminal(v));
    var notRun := CycleTestsWith(w, s, c, (v: Verdict) => Unrun(v));
    assert CycleTestsWith(w, s, c, (v: Verdict) => true) == terminal + notRun;
    assert terminal !! notRun;
    var passed := CycleTestsWith(w, s, c, (v: Verdict) => v.Passed?);
    var failed := CycleTestsWith(w, s, c, (v: Verdict) => v.Failed?);
    var blocked := CycleTestsWith(w, s, c, (v: Verdict) => v.Blocked?);
    SubsetSize(passed + failed + blocked, terminal);
  }

  // ------------------------------------------------------------------ one row a release

  datatype ReleaseRow = ReleaseRow(
    release: Id, breakdown: seq<CycleRow>, scoped: nat, terminal: nat, passed: nat, failed: nat, blocked: nat,
    completion: Option<real>, passRate: Option<real>, requirements: nat, critical: nat)

  function ReleaseScope(project: Id, release: Id): Scope {
    WholeProject(project).(release := Some(release))
  }

  /** The releases of the project that are not archived. */
  function ShownReleases(w: World, project: Id): set<Id> {
    set r | r in w.db.releases && w.db.releases[r] == project && !ReleaseState(w, r).Archived?
  }

  function RequirementsOf(w: World, project: Id, release: Id): set<Id> {
    set r | r in w.requirements && w.requirements[r].project == project && w.requirements[r].release == Some(release)
  }

  function CriticalOf(w: World, project: Id, release: Id): set<Id> {
    set d | d in w.defects && CriticalOpen(w, WholeProject(project), d) && w.defects[d].release == Some(release)
  }

  /** The row of a release counts its own scope, whatever the cycles it lists were summed in. */
  ghost predicate ReleaseRowOk(w: World, project: Id, release: Id, keyOf: Id -> string, row: ReleaseRow) {
    var s := ReleaseScope(project, release);
    && row.release == release
    && Breakdown(w, s, row.breakdown) && InKeyOrder(row.breakdown, keyOf)
    && row.scoped == |ScopedTests(w, s)|
    && row.terminal == |TestsWith(w, s, (v: Verdict) => Terminal(v))|
    && row.passed == |TestsWith(w, s, (v: Verdict) => v.Passed?)|
    && row.failed == |TestsWith(w, s, (v: Verdict) => v.Failed?)|
    && row.blocked == |TestsWith(w, s, (v: Verdict) => v.Blocked?)|
    && row.completion == Ratio(row.terminal, row.scoped)
    && row.passRate == Ratio(row.passed, row.passed + row.failed + row.blocked)
    && row.requirements == |RequirementsOf(w, project, release)|
    && row.critical == |CriticalOf(w, project, release)|
  }

  /** Giving a requirement a release moves it to the row of that release, out of any other. */
  lemma ReleaseMovesRequirement(w: World, r: Id, release: Option<Id>, next: World, project: Id, x: Id)
    requires Backlog.SetRequirementRelease(w, r, release) == Ok(next)
    ensures RequirementsOf(next, project, x) ==
              if release == Some(x) && w.requirements[r].project == project then RequirementsOf(w, project, x) + {r}
              else RequirementsOf(w, project, x) - {r}
    ensures CriticalOf(next, project, x) == CriticalOf(w, project, x)
  {}

  /** A new defect is counted in the row of the release it names when it is critical, and in no
      other row. */
  lemma NewDefectCounted(w: World, home: Id, severity: Severity, release: Option<Id>, next: World, project: Id, x: Id)
    requires WorldInv(w) && Backlog.CreateDefect(w, home, severity, release) == Ok(next)
    ensures CriticalOf(next, project, x) ==
              CriticalOf(w, project, x)
              + if project == home && release == Some(x) && severity == Severity.Critical then {w.next} else {}
    ensures RequirementsOf(next, project, x) == RequirementsOf(w, project, x)
  {
    hide Inv, LinksOk, LiveOnceEach;
    assert w.next !in w.defects;
  }

  /** One column of the cycle rows, added up. */
  method SumColumn(rows: seq<CycleRow>, field: CycleRow -> nat) returns (total: nat)
    ensures total == Sum(Column(rows, field))
  {
    total := 0;
    for i := 0 to |rows|
      invariant total == Sum(Column(rows[..i], field))
    {
      assert Column(rows[..i + 1], field) == Column(rows[..i], field) + [field(rows[i])];
      SumAppend(Column(rows[..i], field), field(rows[i]));
      total := total + field(rows[i]);
    }
    assert rows[..|rows|] == rows;
  }

  method OneRelease(w: World, project: Id, release: Id, tests: seq<Id>, attempts: Id -> seq<Row>, keyOf: Id -> string)
    returns (row: ReleaseRow)
    requires Enumerates(tests, ScopedTests(w, ReleaseScope(project, release))) && AttemptQueries(w, attempts)
    ensures ReleaseRowOk(w, project, release, keyOf, row)
  {
    hide AttemptQueries, Enumerates, Breakdown, CycleTestsWith, Sum, Column, Terminal, InKeyOrder, Ratio;
    var s := ReleaseScope(project, release);
    var rows := CycleBreakdown(w, s, tests, attempts, keyOf);
    var scoped := SumColumn(rows, (r: CycleRow) => r.scoped);
    var terminal := SumColumn(rows, (r: CycleRow) => r.terminal);
    var passed := SumColumn(rows, (r: CycleRow) => r.passed);
    var failed := SumColumn(rows, (r: CycleRow) => r.failed);
    var blocked := SumColumn(rows, (r: CycleRow) => r.blocked);
    ColumnAddsUp(w, s, rows, (r: CycleRow) => r.scoped, (v: Verdict) => true);
    ColumnAddsUp(w, s, rows, (r: CycleRow) => r.terminal, (v: Verdict) => Terminal(v));
    ColumnAddsUp(w, s, rows, (r: CycleRow) => r.passed, (v: Verdict) => v.Passed?);
    ColumnAddsUp(w, s, rows, (r: CycleRow) => r.failed, (v: Verdict) => v.Failed?);
    ColumnAddsUp(w, s, rows, (r: CycleRow) => r.blocked, (v: Verdict) => v.Blocked?);
    EveryTest(w, s);
    hide TestsWith, ScopedTests, CyclesInScope, RequirementsOf, CriticalOf;
    row := ReleaseRow(release, rows, scoped, terminal, passed, failed, blocked,
                      Ratio(terminal, scoped), Ratio(passed, passed + failed + blocked),
                      |RequirementsOf(w, project, release)|, |CriticalOf(w, project, release)|);
  }

  method ReleaseOverview(
    w: World, project: Id, releases: seq<Id>, testsOf: Id -> seq<Id>, attempts: Id -> seq<Row>, keyOf: Id -> string)
    returns (out: seq<ReleaseRow>)
    requires AttemptQueries(w, attempts) && Enumerates(releases, ShownReleases(w, project))
    requires forall r :: Enumerates(testsOf(r), ScopedTests(w, ReleaseScope(project, r)))
    ensures |out| == |releases|
    ensures forall i :: 0 <= i < |releases| ==> ReleaseRowOk(w, project, releases[i], keyOf, out[i])
  {
    hide AttemptQueries, Enumerates, ReleaseRowOk;
    out := [];
    for i := 0 to |releases|
      invariant |out| == i
      invariant forall k :: 0 <= k < i ==> ReleaseRowOk(w, project, releases[k], keyOf, out[k])
    {
      var row := OneRelease(w, project, releases[i], testsOf(releases[i]), attempts, keyOf);
      out := out + [row];
    }
  }

  /** Completion is the terminal share of a row, and the pass rate the passed share of what was
      judged, if anything was. */
  ghost predicate RatesOk(row: CycleRow) {
    var judged := row.passed + row.failed + row.blocked;
    && row.completion.Some? && 0.0 <= row.completion.value <= 1.0
    && row.completion.value * row.scoped as real == row.terminal as real
    && (row.completion == Some(1.0) <==> row.notRun == 0)
    && (row.passRate.Some? <==> judged > 0)
    && (judged > 0 ==>
          0.0 <= row.passRate.value <= 1.0 && row.passRate.value * judged as real == row.passed as real)
  }

  /** A breakdown has one row for each cycle of the scope, so the rows a release lists are its
      cycle count; each row has tests, and in a state that a run can reach its rates are the
      shares they are named for. */
  lemma BreakdownRatios(projects: set<Id>, calls: History, w: World, s: Scope, rows: seq<CycleRow>, i: nat)
    requires w.db == Reached(projects, calls) && Breakdown(w, s, rows) && i < |rows|
    ensures |rows| == |CyclesInScope(w, s)| && RatesOk(rows[i])
  {
    hide Reached, RatesOk;
    EnumerationSize(Cycles(rows), CyclesInScope(w, s));
    var c := rows[i].cycle;
    BreakdownPartitions(projects, calls, w, s, c);
    assert c == Cycles(rows)[i];
    assert c in CyclesInScope(w, s);
    RowHasTests(w, s, c);
    hide CycleTestsWith, CyclesInScope;
    RatesAreShares(rows[i]);
  }

  lemma RatesAreShares(row: CycleRow)
    requires row == MakeRow(row.cycle, row.scoped, row.terminal, row.passed, row.failed, row.blocked, row.notRun)
    requires row.scoped > 0 && row.terminal + row.notRun == row.scoped
    requires row.passed + row.failed + row.blocked <= row.terminal
    ensures RatesOk(row)
  {
    RatioBounds(row.terminal, row.scoped);
    RatioBounds(row.passed, row.passed + row.failed + row.blocked);
    hide Ratio;
  }

  lemma RowHasTests(w: World, s: Scope, c: Id)
    requires c in CyclesInScope(w, s)
    ensures CycleRowFor(w, s, c).scoped > 0
  {
    hide InScope, ShownFor, CycleOf;
    var t :| t in ScopedTests(w, s) && CycleOf(w, t) == c;
    assert t in CycleTestsWith(w, s, c, (v: Verdict) => true);
  }

  lemma RatioBounds(part: nat, whole: nat)
    requires part <= whole
    ensures Ratio(part, whole).Some? <==> whole > 0
    ensures whole > 0 ==> 0.0 <= Ratio(part, whole).value <= 1.0 && (Ratio(part, whole).value == 1.0 <==> part == whole)
    ensures whole > 0 ==> Ratio(part, whole).value * whole as real == part as real
  {
    if whole > 0 {
      var q, w := part as real / whole as real, whole as real;
      assert q * w == part as real;
      SignOfProduct(q, w);
      SignOfProduct(1.0 - q, w);
      assert (1.0 - q) * w == w - q * w;
    }
  }

  lemma SignOfProduct(x: real, y: real)
    requires y > 0.0
    ensures x > 0.0 <==> x * y > 0.0
    ensures x < 0.0 <==> x * y < 0.0
  {}

  function ReleaseOf(w: World, t: Id): Option<Id> {
    if t in w.db.tests && w.db.tests[t].cycleId in w.db.cycles
    then w.db.cycles[w.db.tests[t].cycleId].context.release
    else None
  }

  ghost function ReleaseTotals(w: World, project: Id, releases: seq<Id>, shown: Verdict -> bool): seq<nat> {
    seq(|releases|, i requires 0 <= i < |releases| => |TestsWith(w, ReleaseScope(project, releases[i]), shown)|)
  }

  /** Whatever result is counted, the totals of distinct releases never exceed the project's,
      and reach it exactly when every counted test of the project runs for one of them. */
  lemma ReleasesNeverExceedProject(w: World, project: Id, releases: seq<Id>, shown: Verdict -> bool)
    requires NoDuplicates(releases)
    ensures var all := TestsWith(w, WholeProject(project), shown);
      && Sum(ReleaseTotals(w, project, releases, shown)) <= |all|
      && (Sum(ReleaseTotals(w, project, releases, shown)) == |all| <==>
            forall t :: t in all ==> ReleaseOf(w, t).Some? && ReleaseOf(w, t).value in releases)
  {
    var all := TestsWith(w, WholeProject(project), shown);
    var key := t => ReleaseOf(w, t);
    var ks := seq(|releases|, i requires 0 <= i < |releases| => Some(releases[i]));
    FibresPartition(all, key, ks);
    forall i | 0 <= i < |releases|
      ensures Fibre(all, key, ks[i]) == TestsWith(w, ReleaseScope(project, releases[i]), shown)
    {
      ReleaseFibre(w, project, releases[i], shown);
    }
    hide TestsWith, ReleaseOf;
    assert FibreSizes(all, key, ks) == ReleaseTotals(w, project, releases, shown);
    SubsetSize(Covered(all, key, ks), all);
    forall t ensures key(t) in ks <==> ReleaseOf(w, t).Some? && ReleaseOf(w, t).value in releases {
      if ReleaseOf(w, t).Some? && ReleaseOf(w, t).value in releases {
        var i :| 0 <= i < |releases| && releases[i] == ReleaseOf(w, t).value;
        assert ks[i] == key(t);
      }
    }
    assert Covered(all, key, ks) == all <==> forall t :: t in all ==> key(t) in ks;
  }

  lemma ReleaseFibre(w: World, project: Id, release: Id, shown: Verdict -> bool)
    ensures Fibre(TestsWith(w, WholeProject(project), shown), t => ReleaseOf(w, t), Some(release))
            == TestsWith(w, ReleaseScope(project, release), shown)
  {}

  // ------------------------------------------------------------------ one bucket a day

  const DAY := 86400

  /** The calendar day of a moment, in days since the epoch. */
  function DayOf(t: Time): int {
    t / DAY
  }

  datatype Bucket = Bucket(passed: nat, failed: nat, blocked: nat, other: nat, total: nat)

  /** When an attempt ended or, failing that, started. */
  function When(a: Attempt): Time {
    if a.ended.Some? then a.ended.value else a.started
  }

  /** Its overall result or, failing that, its status. */
  function Outcome(a: Attempt): Verdict {
    if a.overall.Some? then a.overall.value else a.status
  }

  /** The trend looks at the release, the cycle and the environment; it ignores the plan and
      build filters, and the state of the cycle. */
  predicate InTrend(s: Scope, a: Attempt) {
    && a.project == s.project
    && !a.status.InProgress?
    && (s.release.Some? ==> a.context.release == s.release)
    && (s.cycle.Some? ==> s.cycle.value == a.cycleId)
    && TextFits(s.environment, a.context.environment)
  }

  ghost function TrendAttempts(attempts: map<Id, Attempt>, s: Scope): set<Id> {
    set a | a in attempts && InTrend(s, attempts[a])
  }

  ghost function OnDay(attempts: map<Id, Attempt>, ids: set<Id>, d: int, outcome: Verdict -> bool): set<Id> {
    set a | a in ids && a in attempts && DayOf(When(attempts[a])) == d && outcome(Outcome(attempts[a]))
  }

  ghost function BucketFor(attempts: map<Id, Attempt>, ids: set<Id>, d: int): Bucket {
    Bucket(|OnDay(attempts, ids, d, (v: Verdict) => v.Passed?)|,
           |OnDay(attempts, ids, d, (v: Verdict) => v.Failed?)|,
           |OnDay(attempts, ids, d, (v: Verdict) => v.Blocked?)|,
           |OnDay(attempts, ids, d, (v: Verdict) => !Judged(v))|,
           |OnDay(attempts, ids, d, (v: Verdict) => true)|)
  }

  function Put(b: Bucket, v: Verdict): Bucket {
    var split :=
      if v.Passed? then b.(passed := b.passed + 1)
      else if v.Failed? then b.(failed := b.failed + 1)
      else if v.Blocked? then b.(blocked := b.blocked + 1)
      else b.(other := b.other + 1);
    split.(total := split.total + 1)
  }

  lemma OneMoreOnDay(attempts: map<Id, Attempt>, ids: set<Id>, a: Id, d: int, outcome: Verdict -> bool)
    requires a in attempts && a !in ids
    ensures |OnDay(attempts, ids + {a}, d, outcome)| == |OnDay(attempts, ids, d, outcome)|
            + if DayOf(When(attempts[a])) == d && outcome(Outcome(attempts[a])) then 1 else 0
  {
    hide DayOf, When, Outcome;
    var before := OnDay(attempts, ids, d, outcome);
    if DayOf(When(attempts[a])) == d && outcome(Outcome(attempts[a])) {
      assert OnDay(attempts, ids + {a}, d, outcome) == before + {a};
    } else {
      assert OnDay(attempts, ids + {a}, d, outcome) == before;
    }
  }

  lemma OneMoreInBucket(attempts: map<Id, Attempt>, ids: set<Id>, a: Id, d: int)
    requires a in attempts && a !in ids
    ensures BucketFor(attempts, ids + {a}, d) ==
              if DayOf(When(attempts[a])) == d then Put(BucketFor(attempts, ids, d), Outcome(attempts[a]))
              else BucketFor(attempts, ids, d)
  {
    hide DayOf, When, Outcome, OnDay;
    OneMoreOnDay(attempts, ids, a, d, (v: Verdict) => v.Passed?);
    OneMoreOnDay(attempts, ids, a, d, (v: Verdict) => v.Failed?);
    OneMoreOnDay(attempts, ids, a, d, (v: Verdict) => v.Blocked?);
    OneMoreOnDay(attempts, ids, a, d, (v: Verdict) => !Judged(v));
    OneMoreOnDay(attempts, ids, a, d, (v: Verdict) => true);
  }

  /** The number of days shown: what was asked for, within seven and ninety. */
  function Window(days: int): (n: nat)
    ensures 7 <= n <= 90
    ensures 7 <= days <= 90 ==> n == days
  {
    if days < 7 then 7 else if days > 90 then 90 else days
  }

  /** The first day shown: the window ends today. */
  function FirstDay(now: Time, days: int): int {
    DayOf(now) - (Window(days) - 1)
  }

  method ExecutionTrend(attempts: map<Id, Attempt>, s: Scope, now: Time, days: int, rows: seq<Id>)
    returns (series: seq<Bucket>)
    requires Enumerates(rows, TrendAttempts(attempts, s))
    ensures |series| == Window(days)
    ensures forall i :: 0 <= i < |series| ==>
              series[i] == BucketFor(attempts, TrendAttempts(attempts, s), FirstDay(now, days) + i)
  {
    hide DayOf, When, Outcome, Put, BucketFor, InTrend;
    var start := FirstDay(now, days);
    var n := Window(days);
    var buckets: map<int, Bucket> := map[];
    for i := 0 to n
      invariant forall d :: d in buckets <==> start <= d < start + i
      invariant forall d :: d in buckets ==> buckets[d] == Bucket(0, 0, 0, 0, 0)
    {
      buckets := buckets[start + i := Bucket(0, 0, 0, 0, 0)];
    }
    ghost var done: set<Id> := {};
    forall d | start <= d < start + n ensures BucketFor(attempts, {}, d) == buckets[d] {
      EmptyBucket(attempts, d);
    }
    for i := 0 to |rows|
      invariant done == set a | a in rows[..i]
      invariant forall d :: d in buckets <==> start <= d < start + n
      invariant forall d :: d in buckets ==> buckets[d] == BucketFor(attempts, done, d)
    {
      var a := rows[i];
      assert a in rows && rows[..i + 1] == rows[..i] + [a];
      forall d { OneMoreInBucket(attempts, done, a, d); }
      done := done + {a};
      var key := DayOf(When(attempts[a]));
      if key in buckets {
        buckets := buckets[key := Put(buckets[key], Outcome(attempts[a]))];
      }
    }
    assert rows[..|rows|] == rows;
    assert done == TrendAttempts(attempts, s);
    series := seq(n, i requires 0 <= i < n && start + i in buckets => buckets[start + i]);
  }

  lemma EmptyBucket(attempts: map<Id, Attempt>, d: int)
    ensures BucketFor(attempts, {}, d) == Bucket(0, 0, 0, 0, 0)
  {}

  ghost function Totals(attempts: map<Id, Attempt>, ids: set<Id>, first: int, n: nat): seq<nat> {
    seq<nat>(n, i => BucketFor(attempts, ids, first + i).total)
  }

  /** Each bucket's total is the sum of its parts, and the buckets together hold every
      finished attempt of the window exactly once. */
  lemma TrendConserves(attempts: map<Id, Attempt>, s: Scope, now: Time, days: int)
    ensures var ids := TrendAttempts(attempts, s);
      && (forall d :: var b := BucketFor(attempts, ids, d); b.total == b.passed + b.failed + b.blocked + b.other)
      && Sum(Totals(attempts, ids, FirstDay(now, days), Window(days)))
         == |set a | a in ids && DayOf(now) - Window(days) < DayOf(When(attempts[a])) <= DayOf(now)|
  {
    var ids := TrendAttempts(attempts, s);
    hide BucketFor, InTrend;
    forall d ensures var b := BucketFor(attempts, ids, d); b.total == b.passed + b.failed + b.blocked + b.other {
      BucketSplits(attempts, ids, d);
    }
    TotalsAddUp(attempts, ids, FirstDay(now, days), Window(days));
    assert (set a | a in ids && FirstDay(now, days) <= DayOf(When(attempts[a])) < FirstDay(now, days) + Window(days))
        == set a | a in ids && DayOf(now) - Window(days) < DayOf(When(attempts[a])) <= DayOf(now);
  }

  lemma TotalsAddUp(attempts: map<Id, Attempt>, ids: set<Id>, first: int, n: nat)
    requires ids <= attempts.Keys
    ensures Sum(Totals(attempts, ids, first, n))
            == |set a | a in ids && first <= DayOf(When(attempts[a])) < first + n|
  {
    hide DayOf, When, Outcome;
    var key := a => if a in attempts then DayOf(When(attempts[a])) else 0;
    var ks := seq(n, i => first + i);
    FibresPartition(ids, key, ks);
    var sizes, totals := FibreSizes(ids, key, ks), Totals(attempts, ids, first, n);
    forall i | 0 <= i < n ensures sizes[i] == totals[i] {
      assert ks[i] == first + i;
      var day := OnDay(attempts, ids, first + i, (v: Verdict) => true);
      forall a ensures a in Fibre(ids, key, ks[i]) <==> a in day {}
      assert Fibre(ids, key, ks[i]) == day;
      assert totals[i] == BucketFor(attempts, ids, first + i).total == |day|;
      assert sizes[i] == |Fibre(ids, key, ks[i])|;
    }
    assert sizes == totals;
    forall d ensures d in ks <==> first <= d < first + n {
      if first <= d < first + n { assert ks[d - first] == d; }
    }
    assert Covered(ids, key, ks) == set a | a in ids && first <= DayOf(When(attempts[a])) < first + n;
  }

  lemma BucketSplits(attempts: map<Id, Attempt>, ids: set<Id>, d: int)
    ensures var b := BucketFor(attempts, ids, d); b.total == b.passed + b.failed + b.blocked + b.other
  {
    hide DayOf, When, Outcome;
    var passed := OnDay(attempts, ids, d, (v: Verdict) => v.Passed?);
    var failed := OnDay(attempts, ids, d, (v: Verdict) => v.Failed?);
    var blocked := OnDay(attempts, ids, d, (v: Verdict) => v.Blocked?);
    var other := OnDay(attempts, ids, d, (v: Verdict) => !Judged(v));
    var all := OnDay(attempts, ids, d, (v: Verdict) => true);
    assert all == passed + (failed + (blocked + other));
    assert blocked !! other;
    assert failed !! blocked + other;
    assert passed !! failed + (blocked + other);
  }

  /** In every reachable state the trend files an attempt under the day it ended and the
      verdict it ended with; a correction does not move it. */
  lemma TrendShowsOriginalVerdicts(projects: set<Id>, calls: History, s: Scope, a: Id)
    requires a in TrendAttempts(Reached(projects, calls).attempts, s)
    ensures var row := Reached(projects, calls).attempts[a];
      Terminal(row.status) && Outcome(row) == row.status && row.ended == Some(When(row))
  {
    ReachedInv(projects, calls);
    hide Reached, RepositoryOk, HistoriesOk, CyclesOk, TestsOk, LiveOnce, OneOpen, RetestsOk;
    var db := Reached(projects, calls);
    assert AttemptOk(db.cycles, db.tests, db.attempts[a]);
  }

  /** The attempts of the trend that ended on this day with this status. */
  ghost function EndedOn(attempts: map<Id, Attempt>, s: Scope, d: int, v: Verdict): set<Id> {
    set a | a in TrendAttempts(attempts, s) && a in attempts && attempts[a].status == v
            && attempts[a].ended.Some? && attempts[a].ended.value / 86400 == d
  }

  /** In every reachable state a bucket has under each name the attempts that ended so on its day,
      and the skipped and the aborted under the last. */
  lemma BucketsByStatus(projects: set<Id>, calls: History, s: Scope, d: int)
    ensures var attempts := Reached(projects, calls).attempts;
      var b := BucketFor(attempts, TrendAttempts(attempts, s), d);
      && b.passed == |EndedOn(attempts, s, d, Passed)|
      && b.failed == |EndedOn(attempts, s, d, Failed)|
      && b.blocked == |EndedOn(attempts, s, d, Blocked)|
      && b.other == |EndedOn(attempts, s, d, Skipped) + EndedOn(attempts, s, d, Aborted)|
      && b.total == b.passed + b.failed + b.blocked + b.other
  {
    hide Reached, InTrend;
    var attempts := Reached(projects, calls).attempts;
    var ids := TrendAttempts(attempts, s);
    forall a | a in ids
      ensures a in attempts && Terminal(attempts[a].status) && Outcome(attempts[a]) == attempts[a].status
      ensures attempts[a].ended.Some? && DayOf(When(attempts[a])) == attempts[a].ended.value / 86400
    {
      TrendShowsOriginalVerdicts(projects, calls, s, a);
    }
    BucketSplits(attempts, ids, d);
    hide Outcome, When, DayOf;
    assert OnDay(attempts, ids, d, (v: Verdict) => v.Passed?) == EndedOn(attempts, s, d, Passed);
    assert OnDay(attempts, ids, d, (v: Verdict) => v.Failed?) == EndedOn(attempts, s, d, Failed);
    assert OnDay(attempts, ids, d, (v: Verdict) => v.Blocked?) == EndedOn(attempts, s, d, Blocked);
    assert OnDay(attempts, ids, d, (v: Verdict) => !Judged(v))
        == EndedOn(attempts, s, d, Skipped) + EndedOn(attempts, s, d, Aborted);
  }

  /** A filter keeps of the trend exactly the attempts that ran with that value. */
  lemma TrendFiltersPartition(attempts: map<Id, Attempt>, s: Scope)
    ensures s.release.Some? ==>
              TrendAttempts(attempts, s) ==
                set a | a in TrendAttempts(attempts, s.(release := None)) && attempts[a].context.release == s.release
    ensures s.cycle.Some? ==>
              TrendAttempts(attempts, s) ==
                set a | a in TrendAttempts(attempts, s.(cycle := None)) && attempts[a].cycleId == s.cycle.value
    ensures s.environment.Some? && s.environment.value != "" ==>
              TrendAttempts(attempts, s) ==
                set a | a in TrendAttempts(attempts, s.(environment := None))
                        && attempts[a].context.environment == s.environment.value
    ensures TrendAttempts(attempts, s) == TrendAttempts(attempts, s.(plan := None, build := None))
  {}

  lemma AttemptInItsProject(db: Db, a: Id)
    requires TestsOk(db.cases, db.versions, db.cycles, db.tests) && AttemptsOk(db.cycles, db.tests, db.attempts)
    requires a in db.attempts
    ensures db.attempts[a].cycleId in db.cycles && db.cycles[db.attempts[a].cycleId].project == db.attempts[a].project
  {
    var row := db.attempts[a];
    assert AttemptOk(db.cycles, db.tests, row);
    assert TestOk(db.cases, db.versions, db.cycles, db.tests[row.testId]);
  }

  /** In every reachable state the trend of a project is over the finished attempts of its cycles,
      archived ones as well. */
  lemma ProjectTrendExactly(projects: set<Id>, acts: seq<(Time, Act)>, project: Id, a: Id)
    ensures var db := ReachedWorld(projects, acts).db;
            a in TrendAttempts(db.attempts, WholeProject(project)) <==>
              && a in db.attempts && !db.attempts[a].status.InProgress? && db.attempts[a].cycleId in db.cycles
              && db.cycles[db.attempts[a].cycleId].project == project
  {
    ReachedWorldInv(projects, acts);
    var db := ReachedWorld(projects, acts).db;
    hide ReachedWorld, TestsOk, AttemptsOk;
    if a in db.attempts { AttemptInItsProject(db, a); }
  }
}
