/** Every service call keeps the invariant and only lets the database grow.  A call touches
    the repository, the planning tables or the attempts; for each of the three there is one
    predicate saying what a harmless change is, one lemma that such a change keeps the rest,
    and one lemma a call that its change is harmless. */
module Preservation {
  import opened Common
  import opened Tables
  import opened Evidence
  import TC = TestCases
  import PL = Planning
  import EX = Execution

  lemma GrowsReflexive(db: Db)
    ensures Grows(db, db)
  {}

  lemma GrowsTransitive(a: Db, b: Db, c: Db)
    requires Grows(a, b) && Grows(b, c)
    ensures Grows(a, c)
  {}

  // ------------------------------------------------------------------ harmless changes

  ghost predicate RepositoryChanged(db: Db, next: Db) {
    && next == db.(cases := next.cases, versions := next.versions, nextId := next.nextId)
    && db.nextId <= next.nextId && Below(next.cases, next.nextId) && Below(next.versions, next.nextId)
    && RepositoryOk(next.cases, next.versions)
    && HistoriesOk(next.cases, next.versions)
    && VersionsKept(db.versions, next.versions)
    && OldContentKept(db, next)
    && CasesKept(db.cases, next.cases)
  }

  lemma RepositoryStep(db: Db, next: Db)
    requires Inv(db) && RepositoryChanged(db, next)
    ensures Inv(next) && Grows(db, next)
  {
    hide RepositoryOk, HistoriesOk, OldContentKept, OneOpen, LiveOnce, CyclesOk, AttemptsOk, RetestsOk;
    TestsFramed(db.cases, db.versions, next.cases, next.versions, db.cycles, db.tests);
    SameKept(db, next);
  }

  lemma SameKept(db: Db, next: Db)
    ensures next.cases == db.cases && next.versions == db.versions ==>
              VersionsKept(db.versions, next.versions) && OldContentKept(db, next) && CasesKept(db.cases, next.cases)
    ensures next.cycles == db.cycles ==> CyclesKept(db.cycles, next.cycles)
    ensures next.tests == db.tests ==> TestsKept(db.tests, next.tests)
    ensures next.attempts == db.attempts ==> AttemptsKept(db.attempts, next.attempts)
    ensures next.releases == db.releases ==> ReleasesKept(db.releases, next.releases)
  {}

  lemma TestsFramed(
    cases: map<Id, Case>, versions: map<Id, Version>, cases': map<Id, Case>, versions': map<Id, Version>,
    cycles: map<Id, Cycle>, tests: map<Id, CycleTest>)
    requires TestsOk(cases, versions, cycles, tests)
    requires VersionsKept(versions, versions') && CasesKept(cases, cases')
    ensures TestsOk(cases', versions', cycles, tests)
  {}

  ghost predicate SameEvidence(before: map<Id, CycleTest>, after: map<Id, CycleTest>, t: Id) {
    t in before ==> t in after && after[t].versionId == before[t].versionId && after[t].steps == before[t].steps
  }

  ghost predicate EvidenceKept(attempts: map<Id, Attempt>, db: Db, next: Db) {
    forall a :: a in attempts ==>
      && SameEvidence(db.tests, next.tests, attempts[a].testId)
      && (attempts[a].status.InProgress? && attempts[a].cycleId in next.cycles ==>
            !next.cycles[attempts[a].cycleId].status.Completed?)
  }

  ghost predicate RetestsInherited(db: Db, next: Db) {
    forall t :: t in next.tests && next.tests[t].retest ==> t in db.tests && db.tests[t].retest
  }

  ghost predicate PlanningChanged(db: Db, next: Db) {
    && next == db.(cycles := next.cycles, tests := next.tests, nextId := next.nextId)
    && db.nextId <= next.nextId && Below(next.cycles, next.nextId) && Below(next.tests, next.nextId)
    && CyclesOk(next.plans, next.cycles)
    && TestsOk(next.cases, next.versions, next.cycles, next.tests)
    && LiveOnce(next.tests)
    && EvidenceKept(next.attempts, db, next)
    && RetestsInherited(db, next)
    && CyclesKept(db.cycles, next.cycles)
    && TestsKept(db.tests, next.tests)
  }

  lemma PlanningStep(db: Db, next: Db)
    requires Inv(db) && PlanningChanged(db, next)
    ensures Inv(next) && Grows(db, next)
  {
    hide RepositoryOk, HistoriesOk, CyclesOk, TestsOk, LiveOnce, OneOpen, AttemptsOk, VersionsKept, RetestsOk,
      OldContentKept, EvidenceKept, CyclesKept, TestsKept, AttemptsKept, ReleasesKept, CasesKept, RetestsInherited;
    AttemptsFramed(db, next);
    RetestsFramed(db, next);
    SameKept(db, next);
  }

  lemma AttemptsFramed(db: Db, next: Db)
    requires AttemptsOk(db.cycles, db.tests, db.attempts)
    requires EvidenceKept(db.attempts, db, next) && CyclesKept(db.cycles, next.cycles) && TestsKept(db.tests, next.tests)
    ensures AttemptsOk(next.cycles, next.tests, db.attempts)
  {}

  lemma RetestsFramed(db: Db, next: Db)
    requires RetestsOk(db.tests, db.attempts) && RetestsInherited(db, next)
    ensures RetestsOk(next.tests, db.attempts)
  {}

  ghost predicate OnlyFlags(before: map<Id, CycleTest>, after: map<Id, CycleTest>) {
    && after.Keys == before.Keys
    && forall t :: t in before ==> after[t] == before[t].(retest := after[t].retest)
  }

  ghost predicate ExecutionChanged(db: Db, next: Db) {
    && next == db.(tests := next.tests, attempts := next.attempts, nextId := next.nextId)
    && db.nextId <= next.nextId && Below(next.attempts, next.nextId)
    && OnlyFlags(db.tests, next.tests)
    && AttemptsOk(next.cycles, next.tests, next.attempts)
    && OneOpen(next.attempts)
    && RetestsOk(next.tests, next.attempts)
    && AttemptsKept(db.attempts, next.attempts)
  }

  lemma ExecutionStep(db: Db, next: Db)
    requires Inv(db) && ExecutionChanged(db, next)
    ensures Inv(next) && Grows(db, next)
  {
    hide RepositoryOk, HistoriesOk, CyclesOk, TestsOk, LiveOnce, OneOpen, AttemptsOk, VersionsKept, RetestsOk,
      OldContentKept, CyclesKept, TestsKept, AttemptsKept, ReleasesKept, CasesKept, OnlyFlags;
    FlagsFramed(db, next);
    SameKept(db, next);
  }

  lemma FlagsFramed(db: Db, next: Db)
    requires TestsOk(db.cases, db.versions, db.cycles, db.tests) && LiveOnce(db.tests) && Below(db.tests, db.nextId)
    requires OnlyFlags(db.tests, next.tests) && db.nextId <= next.nextId
    ensures TestsOk(db.cases, db.versions, db.cycles, next.tests) && LiveOnce(next.tests)
    ensures TestsKept(db.tests, next.tests) && Below(next.tests, next.nextId)
  {}

  // ------------------------------------------------------------------ test cases

  ghost predicate RepositoryInv(db: Db) {
    && Below(db.cases, db.nextId) && Below(db.versions, db.nextId)
    && RepositoryOk(db.cases, db.versions)
    && HistoriesOk(db.cases, db.versions)
  }

  /** A version of another case does not disturb this case's history. */
  lemma KeepHistory(before: map<Id, Version>, after: map<Id, Version>, c: Id, current: Id)
    requires current in before && HistoryOk(before, c, current)
    requires VersionsKept(before, after)
    requires forall v :: v in after && v !in before ==> after[v].caseId != c
    ensures HistoryOk(after, c, current)
  {
    forall k: nat | 1 <= k <= after[current].number ensures HasNumber(after, c, k) {
      assert HasNumber(before, c, k);
      var v :| v in before && before[v].caseId == c && before[v].number == k;
      assert v in after;
    }
  }

  lemma KeepHistories(before: map<Id, Version>, after: map<Id, Version>, cases: map<Id, Case>, cases': map<Id, Case>)
    requires HistoriesOk(cases, before) && VersionsKept(before, after)
    requires forall v :: v in after ==> v in before
    requires forall c :: c in cases' ==> c in cases && cases'[c].current == cases[c].current
    ensures HistoriesOk(cases', after)
  {
    forall c | c in cases' ensures cases'[c].current in after && HistoryOk(after, c, cases'[c].current) {
      KeepHistory(before, after, c, cases[c].current);
    }
  }

  /** What a repository change must not do to the rows that were there. */
  ghost predicate RowsKept(db: Db, next: Db) {
    && Below(next.cases, next.nextId) && Below(next.versions, next.nextId)
    && VersionsKept(db.versions, next.versions)
    && OldContentKept(db, next)
    && CasesKept(db.cases, next.cases)
  }

  lemma RepositoryChange(db: Db, next: Db)
    requires next == db.(cases := next.cases, versions := next.versions, nextId := next.nextId)
    requires db.nextId <= next.nextId
    requires RowsKept(db, next)
    requires forall v :: v in next.versions ==> VersionOk(next.cases, next.versions, v)
    requires forall c :: c in next.cases ==> CaseOk(next.cases, next.versions, c)
    requires HistoriesOk(next.cases, next.versions)
    ensures RepositoryChanged(db, next)
  {}

  ghost predicate NewCase(db: Db, next: Db) {
    var c, v := db.nextId, db.nextId + 1;
    && v in next.versions && c in next.cases
    && next.cases == db.cases[c := next.cases[c]]
    && next.versions == db.versions[v := next.versions[v]]
    && next.nextId == v + 1
    && var row, tc := next.versions[v], next.cases[c];
       && row.caseId == c && row.number == 1 && row.status.Draft? && !row.locked && TC.Numbered(row.steps)
       && tc.current == v && tc.approved.None? && tc.lifecycle.Draft? && tc.title == row.title
  }

  ghost predicate OwnersKnown(cases: map<Id, Case>, versions: map<Id, Version>) {
    forall v :: v in versions ==> versions[v].caseId in cases
  }

  lemma OwnersAreKnown(cases: map<Id, Case>, versions: map<Id, Version>)
    requires RepositoryOk(cases, versions)
    ensures OwnersKnown(cases, versions)
  {}

  lemma NewCaseKept(db: Db, next: Db)
    requires Below(db.cases, db.nextId) && Below(db.versions, db.nextId) && OwnersKnown(db.cases, db.versions)
    requires NewCase(db, next)
    ensures RowsKept(db, next)
  {}

  lemma NewCaseRows(db: Db, next: Db)
    requires RepositoryInv(db) && NewCase(db, next)
    ensures forall v :: v in next.versions ==> VersionOk(next.cases, next.versions, v)
    ensures forall c :: c in next.cases ==> CaseOk(next.cases, next.versions, c)
  {
    hide HistoriesOk, TC.Numbered;
    forall v | v in next.versions ensures VersionOk(next.cases, next.versions, v) {
      if v in db.versions { assert VersionOk(db.cases, db.versions, v); }
    }
    forall c | c in next.cases ensures CaseOk(next.cases, next.versions, c) {
      if c in db.cases { assert CaseOk(db.cases, db.versions, c); }
    }
  }

  lemma NewCaseHistories(db: Db, next: Db)
    requires Below(db.cases, db.nextId) && Below(db.versions, db.nextId) && OwnersKnown(db.cases, db.versions)
    requires HistoriesOk(db.cases, db.versions) && NewCase(db, next) && VersionsKept(db.versions, next.versions)
    ensures HistoriesOk(next.cases, next.versions)
  {
    hide VersionsKept, HistoryOk, TC.Numbered;
    var c := db.nextId;
    forall x | x in next.cases
      ensures next.cases[x].current in next.versions && HistoryOk(next.versions, x, next.cases[x].current)
    {
      if x == c {
        FirstHistory(db, next);
      } else {
        KeepHistory(db.versions, next.versions, x, db.cases[x].current);
      }
    }
  }

  lemma FirstHistory(db: Db, next: Db)
    requires Below(db.cases, db.nextId) && NewCase(db, next) && OwnersKnown(db.cases, db.versions)
    ensures HistoryOk(next.versions, db.nextId, db.nextId + 1)
  {}

  lemma CreateTestCaseChanges(
    db: Db, p: Id, title: string, d: Option<string>, pre: Option<string>,
    steps: seq<TC.StepInput>, auto: Automation, next: Db)
    requires RepositoryInv(db) && TC.CreateTestCase(db, p, title, d, pre, steps, auto) == Ok(next)
    ensures RepositoryChanged(db, next)
  {
    hide VersionOk, CaseOk, VersionsKept, OldContentKept, CasesKept, HistoriesOk, Strip;
    assert NewCase(db, next);
    OwnersAreKnown(db.cases, db.versions);
    NewCaseKept(db, next);
    NewCaseRows(db, next);
    NewCaseHistories(db, next);
    RepositoryChange(db, next);
  }

  lemma NextNumberIsSuccessor(cases: map<Id, Case>, versions: map<Id, Version>, c: Id)
    requires HistoriesOk(cases, versions) && c in cases && versions[cases[c].current].caseId == c
    ensures TC.NextVersionNumber(versions, c) == versions[cases[c].current].number + 1
  {
    var current := cases[c].current;
    assert HistoryOk(versions, c, current);
    assert versions[current].number in TC.NumbersOf(versions, c);
  }

  /** A case row and its new current version change together. */
  ghost predicate CurrentRow(cases: map<Id, Case>, versions: map<Id, Version>, c: Id, tc: Case, row: Version) {
    var v := tc.current;
    && c in cases && cases[c].current in versions
    && (v in versions ==> v == cases[c].current && versions[v].caseId == c && !versions[v].locked)
    && (v !in versions ==> !versions[cases[c].current].status.Draft?)
    && row.caseId == c && TC.Numbered(row.steps) && (row.locked <==> Locking(row.status))
    && tc.project == cases[c].project && row.title == tc.title
    && (v in versions ==> row.number == versions[v].number)
    && (NeedsApproval(tc.lifecycle) ==> tc.approved.Some?)
  }

  /** The approval pointer after the change: untouched, or moved to the new current version. */
  ghost predicate ApprovalRow(cases: map<Id, Case>, versions: map<Id, Version>, c: Id, tc: Case, row: Version)
    requires c in cases
  {
    if row.status.Approved? then
      && tc.approved == Some(tc.current)
      && forall w :: w in versions && versions[w].caseId == c && w != tc.current ==> !versions[w].status.Approved?
    else
      && tc.approved == cases[c].approved != Some(tc.current)
      && (tc.approved.Some? ==>
            && tc.approved.value in versions
            && versions[tc.approved.value].caseId == c
            && versions[tc.approved.value].status.Approved?)
  }

  lemma RowChangeOk(cases: map<Id, Case>, versions: map<Id, Version>, c: Id, tc: Case, row: Version)
    requires forall v :: v in versions ==> VersionOk(cases, versions, v)
    requires forall x :: x in cases && x != c ==> CaseOk(cases, versions, x)
    requires CurrentRow(cases, versions, c, tc, row) && ApprovalRow(cases, versions, c, tc, row)
    ensures var cases', versions' := cases[c := tc], versions[tc.current := row];
      && (forall v :: v in versions' ==> VersionOk(cases', versions', v))
      && (forall x :: x in cases' ==> CaseOk(cases', versions', x))
  {}

  lemma RowChangeKept(db: Db, c: Id, tc: Case, row: Version, next: Db)
    requires next.cases == db.cases[c := tc] && next.versions == db.versions[tc.current := row]
    requires CurrentRow(db.cases, db.versions, c, tc, row)
    requires Below(db.cases, next.nextId) && Below(db.versions, next.nextId) && tc.current < next.nextId
    ensures RowsKept(db, next)
  {}

  lemma NewContentNumbered(v: Version, edit: TC.Edit)
    requires TC.Numbered(v.steps)
    ensures TC.Numbered(TC.NewContent(v, edit).steps)
  {}

  lemma EditDraftRows(db: Db, c: Id, content: Content)
    requires RepositoryInv(db) && c in db.cases && TC.Numbered(content.steps)
    requires db.cases[c].current in db.versions && db.versions[db.cases[c].current].status.Draft?
    ensures var next := TC.EditDraft(db, c, content);
      && RowsKept(db, next)
      && (forall v :: v in next.versions ==> VersionOk(next.cases, next.versions, v))
      && (forall x :: x in next.cases ==> CaseOk(next.cases, next.versions, x))
  {
    hide HistoriesOk, TC.Numbered, RowsKept;
    assert CaseOk(db.cases, db.versions, c) && VersionOk(db.cases, db.versions, db.cases[c].current);
    hide RepositoryOk;
    var next := TC.EditDraft(db, c, content);
    var tc := next.cases[c];
    RowChangeOk(db.cases, db.versions, c, tc, next.versions[tc.current]);
    RowChangeKept(db, c, tc, next.versions[tc.current], next);
  }

  lemma ForkRows(db: Db, c: Id, content: Content)
    requires RepositoryInv(db) && c in db.cases && TC.Numbered(content.steps)
    requires db.cases[c].current in db.versions && !db.versions[db.cases[c].current].status.Draft?
    ensures var next := TC.Fork(db, c, content);
      && RowsKept(db, next)
      && (forall v :: v in next.versions ==> VersionOk(next.cases, next.versions, v))
      && (forall x :: x in next.cases ==> CaseOk(next.cases, next.versions, x))
  {
    hide HistoriesOk, TC.Numbered, TC.NextVersionNumber, RowsKept;
    assert CaseOk(db.cases, db.versions, c) && VersionOk(db.cases, db.versions, db.cases[c].current);
    hide RepositoryOk;
    var next := TC.Fork(db, c, content);
    var tc := next.cases[c];
    RowChangeOk(db.cases, db.versions, c, tc, next.versions[tc.current]);
    RowChangeKept(db, c, tc, next.versions[tc.current], next);
  }

  lemma UpdateTestCaseRows(db: Db, c: Id, expected: nat, edit: TC.Edit, next: Db)
    requires RepositoryInv(db) && TC.UpdateTestCase(db, c, expected, edit) == Ok(next)
    ensures RowsKept(db, next)
    ensures forall v :: v in next.versions ==> VersionOk(next.cases, next.versions, v)
    ensures forall x :: x in next.cases ==> CaseOk(next.cases, next.versions, x)
  {
    hide HistoriesOk, TC.Controlled, TC.NewContent, RowsKept, TC.EditDraft, TC.Fork, TC.Numbered;
    assert CaseOk(db.cases, db.versions, c) && VersionOk(db.cases, db.versions, db.cases[c].current);
    hide CaseOk, VersionOk;
    var current := db.versions[db.cases[c].current];
    NewContentNumbered(current, edit);
    if !TC.Controlled(current, edit) {
      RevisionOnly(db, c, next);
    } else if current.status.Draft? {
      EditDraftRows(db, c, TC.NewContent(current, edit));
    } else {
      ForkRows(db, c, TC.NewContent(current, edit));
    }
  }

  /** Nothing but the lifecycle state and the row version of a case changes. */
  lemma RevisionOnly(db: Db, c: Id, next: Db)
    requires Below(db.cases, db.nextId) && Below(db.versions, db.nextId) && RepositoryOk(db.cases, db.versions)
    requires c in db.cases && c in next.cases && next.versions == db.versions && next.nextId == db.nextId
    requires var tc := next.cases[c];
      && next.cases == db.cases[c := db.cases[c].(lifecycle := tc.lifecycle, rev := tc.rev)]
      && (NeedsApproval(tc.lifecycle) ==> tc.approved.Some?)
    ensures RowsKept(db, next)
    ensures forall v :: v in next.versions ==> VersionOk(next.cases, next.versions, v)
    ensures forall x :: x in next.cases ==> CaseOk(next.cases, next.versions, x)
  {
    RevisionRowsKept(db, c, next);
    hide RowsKept, RepositoryOk, TC.Numbered;
    RevisionOk(db.cases, db.versions, c, next.cases);
  }

  lemma RevisionRowsKept(db: Db, c: Id, next: Db)
    requires Below(db.cases, db.nextId) && Below(db.versions, db.nextId)
    requires c in db.cases && c in next.cases && next.versions == db.versions && next.nextId == db.nextId
    requires next.cases == db.cases[c := db.cases[c].(lifecycle := next.cases[c].lifecycle, rev := next.cases[c].rev)]
    ensures RowsKept(db, next)
  {
    hide ContentOf;
  }

  lemma RevisionOk(cases: map<Id, Case>, versions: map<Id, Version>, c: Id, after: map<Id, Case>)
    requires RepositoryOk(cases, versions) && c in cases && c in after
    requires after == cases[c := cases[c].(lifecycle := after[c].lifecycle, rev := after[c].rev)]
    requires NeedsApproval(after[c].lifecycle) ==> after[c].approved.Some?
    ensures forall v :: v in versions ==> VersionOk(after, versions, v)
    ensures forall x :: x in after ==> CaseOk(after, versions, x)
  {
    hide TC.Numbered;
    forall v | v in versions ensures VersionOk(after, versions, v) {
      assert VersionOk(cases, versions, v);
    }
    forall x | x in after ensures CaseOk(after, versions, x) {
      assert CaseOk(cases, versions, x);
    }
  }

  lemma UpdateTestCaseChanges(db: Db, c: Id, expected: nat, edit: TC.Edit, next: Db)
    requires RepositoryInv(db) && TC.UpdateTestCase(db, c, expected, edit) == Ok(next)
    ensures RepositoryChanged(db, next)
  {
    hide VersionOk, CaseOk, VersionsKept, OldContentKept, CasesKept, HistoriesOk, Strip, TC.Controlled, TC.NewContent;
    assert CaseOk(db.cases, db.versions, c);
    UpdateTestCaseRows(db, c, expected, edit, next);
    UpdateTestCaseHistories(db, c, expected, edit, next);
    hide TC.UpdateTestCase;
    RepositoryChange(db, next);
  }

  lemma UpdateTestCaseHistories(db: Db, c: Id, expected: nat, edit: TC.Edit, next: Db)
    requires HistoriesOk(db.cases, db.versions) && db.nextId !in db.versions
    requires TC.UpdateTestCase(db, c, expected, edit) == Ok(next)
    requires CaseOk(db.cases, db.versions, c) && VersionsKept(db.versions, next.versions)
    ensures HistoriesOk(next.cases, next.versions)
  {
    hide HistoriesOk, TC.Controlled, VersionsKept, TC.NewContent, TC.Fork;
    var tc := db.cases[c];
    var current := db.versions[tc.current];
    if TC.Controlled(current, edit) && !current.status.Draft? {
      ForkHistories(db, c, TC.NewContent(current, edit));
    } else {
      KeepHistories(db.versions, next.versions, db.cases, next.cases);
    }
  }

  lemma ForkHistories(db: Db, c: Id, content: Content)
    requires HistoriesOk(db.cases, db.versions) && db.nextId !in db.versions && c in db.cases
    requires db.versions[db.cases[c].current].caseId == c
    ensures var next := TC.Fork(db, c, content); HistoriesOk(next.cases, next.versions)
  {
    NextNumberIsSuccessor(db.cases, db.versions, c);
    hide HistoryOk, HistoriesOk;
    ForkShape(db, c, content);
    hide TC.Fork;
    ForkKeepsHistories(db, c, TC.Fork(db, c, content));
  }

  lemma ForkShape(db: Db, c: Id, content: Content)
    requires c in db.cases && db.cases[c].current in db.versions && db.nextId !in db.versions
    ensures var next := TC.Fork(db, c, content);
      && next.versions == db.versions[db.nextId := next.versions[db.nextId]]
      && next.cases == db.cases[c := next.cases[c]] && next.cases[c].current == db.nextId
      && next.versions[db.nextId].caseId == c
      && next.versions[db.nextId].number == TC.NextVersionNumber(db.versions, c)
  {
    hide TC.NextVersionNumber;
  }

  lemma ForkKeepsHistories(db: Db, c: Id, next: Db)
    requires HistoriesOk(db.cases, db.versions) && db.nextId !in db.versions && c in db.cases && c in next.cases
    requires db.nextId in next.versions && next.versions == db.versions[db.nextId := next.versions[db.nextId]]
    requires next.versions[db.nextId].caseId == c
    requires db.cases[c].current in db.versions
    requires next.versions[db.nextId].number == db.versions[db.cases[c].current].number + 1
    requires next.cases == db.cases[c := next.cases[c]] && next.cases[c].current == db.nextId
    ensures HistoriesOk(next.cases, next.versions)
  {
    hide HistoryOk;
    assert VersionsKept(db.versions, next.versions);
    hide VersionsKept;
    forall x | x in next.cases
      ensures next.cases[x].current in next.versions && HistoryOk(next.versions, x, next.cases[x].current)
    {
      if x == c {
        ForkKeepsHistory(db.versions, next.versions, c, db.cases[c].current, db.nextId);
      } else {
        KeepHistory(db.versions, next.versions, x, db.cases[x].current);
      }
    }
  }

  lemma ForkKeepsHistory(before: map<Id, Version>, after: map<Id, Version>, c: Id, current: Id, fork: Id)
    requires current in before && HistoryOk(before, c, current) && fork !in before
    requires after.Keys == before.Keys + {fork}
    requires forall v :: v in before ==> after[v] == before[v]
    requires after[fork].caseId == c && after[fork].number == before[current].number + 1
    ensures HistoryOk(after, c, fork)
  {
    forall k: nat | 1 <= k <= after[fork].number ensures HasNumber(after, c, k) {
      if k < after[fork].number {
        assert HasNumber(before, c, k);
        var v :| v in before && before[v].caseId == c && before[v].number == k;
        assert after[v].number == k;
      }
    }
  }

  lemma SupersedeKeeps(cases: map<Id, Case>, versions: map<Id, Version>, c: Id)
    requires c in cases && CaseOk(cases, versions, c)
    ensures var versions' := TC.Supersede(versions, cases[c]);
      && versions'.Keys == versions.Keys
      && VersionsKept(versions, versions')
      && versions'[cases[c].current] == versions[cases[c].current]
      && (forall v :: v in versions ==> ContentOf(versions'[v]) == ContentOf(versions[v]))
      && (forall v :: v in versions ==> (versions'[v].locked <==> versions[v].locked))
  {}

  lemma SupersedeOk(cases: map<Id, Case>, versions: map<Id, Version>, c: Id)
    requires RepositoryOk(cases, versions) && c in cases
    ensures var versions' := TC.Supersede(versions, cases[c]);
      && (forall v :: v in versions' ==> VersionOk(cases, versions', v))
      && (forall x :: x in cases && x != c ==> CaseOk(cases, versions', x))
      && (forall w :: w in versions' && versions'[w].caseId == c && w != cases[c].current ==>
            !versions'[w].status.Approved?)
  {}

  /** The versions as approval finds them, the case's old approved version superseded. */
  ghost function AfterSupersede(db: Db, c: Id, target: VersionStatus): map<Id, Version>
    requires c in db.cases
  {
    if target.Approved? then TC.Supersede(db.versions, db.cases[c]) else db.versions
  }

  lemma TransitionVersionRows(db: Db, c: Id, target: VersionStatus, expected: nat, next: Db)
    requires RepositoryInv(db) && TC.TransitionVersion(db, c, target, expected) == Ok(next)
    ensures RowsKept(db, next)
    ensures forall v :: v in next.versions ==> VersionOk(next.cases, next.versions, v)
    ensures forall x :: x in next.cases ==> CaseOk(next.cases, next.versions, x)
  {
    hide HistoriesOk, RowsKept, VersionsKept, TC.TransitionVersion, VersionOk, CaseOk, CurrentRow, ApprovalRow,
      AfterSupersede;
    CaseKnown(db, c, target, expected);
    var versions := AfterSupersede(db, c, target);
    SupersedeFirst(db, c, target);
    TransitionedVersion(db, c, target, expected, next);
    hide RepositoryOk;
    var tc := next.cases[c];
    RowChangeOk(db.cases, versions, c, tc, next.versions[tc.current]);
    SupersededKept(db, c, versions, tc, next.versions[tc.current], next);
  }

  lemma SupersedeFirst(db: Db, c: Id, target: VersionStatus)
    requires RepositoryOk(db.cases, db.versions) && c in db.cases
    ensures var versions := AfterSupersede(db, c, target);
      && versions.Keys == db.versions.Keys && VersionsKept(db.versions, versions)
      && (forall v :: v in db.versions ==> ContentOf(versions[v]) == ContentOf(db.versions[v]))
      && (forall v :: v in db.versions ==> (versions[v].locked <==> db.versions[v].locked))
      && (forall v :: v in versions ==> VersionOk(db.cases, versions, v))
      && (forall x :: x in db.cases && x != c ==> CaseOk(db.cases, versions, x))
  {
    hide TC.Supersede, VersionOk, CaseOk, VersionsKept;
    assert CaseOk(db.cases, db.versions, c);
    SupersedeKeeps(db.cases, db.versions, c);
    SupersedeOk(db.cases, db.versions, c);
    SameVersionsKept(db.versions);
  }

  lemma CaseKnown(db: Db, c: Id, target: VersionStatus, expected: nat)
    requires TC.TransitionVersion(db, c, target, expected).Ok?
    ensures c in db.cases
  {}

  lemma SameVersionsKept(versions: map<Id, Version>)
    ensures VersionsKept(versions, versions)
  {}

  lemma TransitionedVersion(db: Db, c: Id, target: VersionStatus, expected: nat, next: Db)
    requires RepositoryOk(db.cases, db.versions) && TC.TransitionVersion(db, c, target, expected) == Ok(next)
    ensures c in db.cases && c in next.cases && next.cases == db.cases[c := next.cases[c]] && next.nextId == db.nextId
    ensures var tc, versions := next.cases[c], AfterSupersede(db, c, target);
      && tc.current in versions && tc.current in next.versions
      && next.versions == versions[tc.current := next.versions[tc.current]]
      && CurrentRow(db.cases, versions, c, tc, next.versions[tc.current])
      && ApprovalRow(db.cases, versions, c, tc, next.versions[tc.current])
  {
    assert CaseOk(db.cases, db.versions, c) && VersionOk(db.cases, db.versions, db.cases[c].current);
    hide CurrentRow, ApprovalRow;
    if target.Approved? {
      SupersedeKeeps(db.cases, db.versions, c);
      SupersedeOk(db.cases, db.versions, c);
      hide RepositoryOk, CaseOk, VersionOk, VersionsKept, TC.Supersede;
      ApprovedVersion(db, c, expected, next);
    } else {
      hide RepositoryOk, CaseOk, VersionOk;
      MovedVersion(db, c, target, expected, next);
    }
  }

  lemma ApprovedVersion(db: Db, c: Id, expected: nat, next: Db)
    requires TC.TransitionVersion(db, c, VersionStatus.Approved, expected) == Ok(next)
    requires CaseOk(db.cases, db.versions, c) && VersionOk(db.cases, db.versions, db.cases[c].current)
    requires var versions := TC.Supersede(db.versions, db.cases[c]);
      && versions.Keys == db.versions.Keys
      && versions[db.cases[c].current] == db.versions[db.cases[c].current]
      && (forall w :: w in versions && versions[w].caseId == c && w != db.cases[c].current ==>
            !versions[w].status.Approved?)
    ensures next == db.(cases := db.cases[c := next.cases[c]], versions := next.versions)
    ensures var tc, versions := next.cases[c], TC.Supersede(db.versions, db.cases[c]);
      && tc.current in versions && tc.current in next.versions
      && next.versions == versions[tc.current := next.versions[tc.current]]
      && CurrentRow(db.cases, versions, c, tc, next.versions[tc.current])
      && ApprovalRow(db.cases, versions, c, tc, next.versions[tc.current])
  {
    hide TC.Supersede, TC.Reviewable, TC.Numbered;
  }

  lemma MovedVersion(db: Db, c: Id, target: VersionStatus, expected: nat, next: Db)
    requires TC.TransitionVersion(db, c, target, expected) == Ok(next) && !target.Approved?
    requires CaseOk(db.cases, db.versions, c) && VersionOk(db.cases, db.versions, db.cases[c].current)
    ensures next == db.(cases := db.cases[c := next.cases[c]], versions := next.versions)
    ensures var tc := next.cases[c];
      && tc.current in db.versions && tc.current in next.versions
      && next.versions == db.versions[tc.current := next.versions[tc.current]]
      && CurrentRow(db.cases, db.versions, c, tc, next.versions[tc.current])
      && ApprovalRow(db.cases, db.versions, c, tc, next.versions[tc.current])
  {
    hide TC.Reviewable, TC.Numbered;
  }

  lemma SupersededKept(db: Db, c: Id, versions: map<Id, Version>, tc: Case, row: Version, next: Db)
    requires versions.Keys == db.versions.Keys && VersionsKept(db.versions, versions)
    requires forall v :: v in db.versions ==> ContentOf(versions[v]) == ContentOf(db.versions[v])
    requires forall v :: v in db.versions ==> (versions[v].locked <==> db.versions[v].locked)
    requires next.cases == db.cases[c := tc] && next.versions == versions[tc.current := row]
    requires CurrentRow(db.cases, versions, c, tc, row) && tc.current in versions
    requires Below(db.cases, next.nextId) && Below(db.versions, next.nextId)
    ensures RowsKept(db, next)
  {
    UnlockedRowReplaced(db.versions, versions, tc.current, row);
    SupersededContentKept(db, c, versions, tc, row, next);
    hide VersionsKept, OldContentKept, TC.Numbered;
  }

  lemma UnlockedRowReplaced(before: map<Id, Version>, versions: map<Id, Version>, v: Id, row: Version)
    requires VersionsKept(before, versions) && v in versions && !versions[v].locked
    requires row.caseId == versions[v].caseId && row.number == versions[v].number
    ensures VersionsKept(before, versions[v := row])
  {}

  lemma SupersededContentKept(db: Db, c: Id, versions: map<Id, Version>, tc: Case, row: Version, next: Db)
    requires versions.Keys == db.versions.Keys
    requires forall v :: v in db.versions ==>
               ContentOf(versions[v]) == ContentOf(db.versions[v]) && versions[v].caseId == db.versions[v].caseId
               && (versions[v].locked <==> db.versions[v].locked)
    requires next.cases == db.cases[c := tc] && next.versions == versions[tc.current := row]
    requires CurrentRow(db.cases, versions, c, tc, row) && tc.current in versions
    ensures OldContentKept(db, next)
  {
    hide TC.Numbered;
  }

  lemma TransitionVersionChanges(db: Db, c: Id, target: VersionStatus, expected: nat, next: Db)
    requires RepositoryInv(db) && TC.TransitionVersion(db, c, target, expected) == Ok(next)
    ensures RepositoryChanged(db, next)
  {
    hide VersionOk, CaseOk, VersionsKept, OldContentKept, CasesKept, HistoriesOk, TC.Reviewable;
    TransitionVersionRows(db, c, target, expected, next);
    KeepHistories(db.versions, next.versions, db.cases, next.cases);
    RepositoryChange(db, next);
  }

  lemma LifecycleNeedsApproval(db: Db, c: Id, target: Lifecycle, expected: nat, next: Db)
    requires RepositoryOk(db.cases, db.versions) && TC.TransitionLifecycle(db, c, target, expected) == Ok(next)
    ensures NeedsApproval(next.cases[c].lifecycle) ==> next.cases[c].approved.Some?
  {}

  lemma TransitionLifecycleChanges(db: Db, c: Id, target: Lifecycle, expected: nat, next: Db)
    requires RepositoryInv(db) && TC.TransitionLifecycle(db, c, target, expected) == Ok(next)
    ensures RepositoryChanged(db, next)
  {
    hide VersionOk, CaseOk, VersionsKept, OldContentKept, CasesKept, HistoriesOk;
    LifecycleNeedsApproval(db, c, target, expected, next);
    RevisionOnly(db, c, next);
    KeepHistories(db.versions, next.versions, db.cases, next.cases);
    RepositoryChange(db, next);
  }

  // ------------------------------------------------------------------ cycles

  ghost predicate PlanningInv(db: Db) {
    && Below(db.cycles, db.nextId) && Below(db.tests, db.nextId)
    && CyclesOk(db.plans, db.cycles)
    && TestsOk(db.cases, db.versions, db.cycles, db.tests)
    && LiveOnce(db.tests)
    && AttemptsOk(db.cycles, db.tests, db.attempts)
  }

  /** A new draft cycle takes the next id; the old ones stay. */
  ghost predicate NewCycle(db: Db, next: Db) {
    && db.nextId in next.cycles
    && next.cycles == db.cycles[db.nextId := next.cycles[db.nextId]]
    && next.cycles[db.nextId].status.Draft?
    && next.cycles[db.nextId].context.plan in db.plans
    && db.plans[next.cycles[db.nextId].context.plan].project == next.cycles[db.nextId].project
  }

  /** Old test rows are untouched; the new ones are unsnapshotted, in the new cycle. */
  ghost predicate NewTests(db: Db, next: Db) {
    && (forall t :: t in db.tests ==> t in next.tests && next.tests[t] == db.tests[t])
    && (db.nextId in next.cycles)
    && (forall t :: t in next.tests && t !in db.tests ==>
          && db.nextId < t < next.nextId
          && next.tests[t] == PL.NewTest(db.nextId, next.cycles[db.nextId].project, next.tests[t].caseId)
          && next.tests[t].caseId in db.cases
          && db.cases[next.tests[t].caseId].project == next.cycles[db.nextId].project)
    && (forall t, u :: t in next.tests && u in next.tests ==>
          (t !in db.tests && u !in db.tests && Clash(next.tests[t], next.tests[u]) ==> t == u))
  }

  lemma NewCycleChanges(db: Db, next: Db)
    requires PlanningInv(db) && next == db.(cycles := next.cycles, tests := next.tests, nextId := next.nextId)
    requires db.nextId < next.nextId && NewCycle(db, next) && NewTests(db, next)
    ensures PlanningChanged(db, next)
  {
    NewCycleTests(db, next);
    NewCycleAttempts(db, next);
    hide AttemptsOk, EvidenceKept, TestsOk, LiveOnce, Clash;
  }

  lemma NewCycleTests(db: Db, next: Db)
    requires Below(db.cycles, db.nextId) && NewCycle(db, next) && NewTests(db, next)
    requires TestsOk(db.cases, db.versions, db.cycles, db.tests) && LiveOnce(db.tests)
    requires next.cases == db.cases && next.versions == db.versions
    ensures TestsOk(next.cases, next.versions, next.cycles, next.tests) && LiveOnce(next.tests)
  {}

  lemma NewCycleAttempts(db: Db, next: Db)
    requires Below(db.cycles, db.nextId) && NewCycle(db, next) && NewTests(db, next)
    requires AttemptsOk(db.cycles, db.tests, db.attempts)
    ensures EvidenceKept(db.attempts, db, next)
  {}

  lemma CreateCycleChanges(db: Db, p: Id, release: Option<Id>, env: string, build: string, next: Db)
    requires PlanningInv(db) && PL.CreateCycle(db, p, release, env, build) == Ok(next)
    ensures PlanningChanged(db, next)
  {
    hide CyclesOk, TestsOk, LiveOnce, AttemptsOk, Strip;
    NewCycleChanges(db, next);
  }

  lemma CloneCycleChanges(db: Db, c: Id, env: string, build: string, rows: seq<Id>, next: Db)
    requires PlanningInv(db) && Enumerates(rows, PL.LiveTests(db, c))
    requires PL.CloneCycle(db, c, env, build, rows) == Ok(next)
    ensures PlanningChanged(db, next)
  {
    hide AttemptsOk, Strip;
    ClonedTestsAreNew(db, c, rows, next);
    hide TestsOk, LiveOnce, NewTests;
    NewCycleChanges(db, next);
  }

  /** What one cloned row is, and the live test of the source it was cloned from. */
  lemma ClonedRow(db: Db, c: Id, rows: seq<Id>, t: Id)
    requires c in db.cycles && Enumerates(rows, PL.LiveTests(db, c))
    requires TestsOk(db.cases, db.versions, db.cycles, db.tests)
    requires t in PL.ClonedTests(db.tests, db.nextId, db.cycles[c].project, rows)
    ensures db.nextId < t <= db.nextId + |rows|
    ensures var source := rows[t - db.nextId - 1];
      && source in db.tests && db.tests[source].caseId in db.cases
      && db.cases[db.tests[source].caseId].project == db.cycles[c].project
      && PL.ClonedTests(db.tests, db.nextId, db.cycles[c].project, rows)[t]
         == PL.NewTest(db.nextId, db.cycles[c].project, db.tests[source].caseId)
  {
    var source := rows[t - db.nextId - 1];
    assert source in rows;
    assert source in PL.LiveTests(db, c);
    assert TestOk(db.cases, db.versions, db.cycles, db.tests[source]);
  }

  lemma ClonedTestsAreNew(db: Db, c: Id, rows: seq<Id>, next: Db)
    requires c in db.cycles && Enumerates(rows, PL.LiveTests(db, c)) && Below(db.tests, db.nextId)
    requires TestsOk(db.cases, db.versions, db.cycles, db.tests) && LiveOnce(db.tests)
    requires db.nextId in next.cycles && next.cycles[db.nextId].project == db.cycles[c].project
    requires next.tests == db.tests + PL.ClonedTests(db.tests, db.nextId, db.cycles[c].project, rows)
    requires next.nextId == db.nextId + 1 + |rows|
    ensures NewTests(db, next)
  {
    var cloned := PL.ClonedTests(db.tests, db.nextId, db.cycles[c].project, rows);
    hide PL.ClonedTests, TestsOk, LiveOnce, Enumerates, PL.LiveTests, PL.NewTest, Clash, Below;
    forall t | t in next.tests && t !in db.tests
      ensures db.nextId < t < next.nextId && next.tests[t].caseId in db.cases
      ensures db.cases[next.tests[t].caseId].project == db.cycles[c].project
      ensures next.tests[t] == PL.NewTest(db.nextId, db.cycles[c].project, next.tests[t].caseId)
    {
      ClonedRow(db, c, rows, t);
      NewTestCase(db.nextId, db.cycles[c].project, db.tests[rows[t - db.nextId - 1]].caseId);
    }
    forall t | t in db.tests ensures t !in cloned {
      ClonedIdsAreNew(db, c, rows, t);
    }
    forall t, u | t in cloned && u in cloned && Clash(cloned[t], cloned[u]) ensures t == u {
      ClonesDiffer(db, c, rows, t, u);
    }
  }

  lemma NewTestCase(cycle: Id, project: Id, c: Id)
    ensures PL.NewTest(cycle, project, c).caseId == c
  {}

  lemma ClonedIdsAreNew(db: Db, c: Id, rows: seq<Id>, t: Id)
    requires c in db.cycles && t in db.tests && Below(db.tests, db.nextId)
    requires forall r :: r in rows ==> r in db.tests
    ensures t !in PL.ClonedTests(db.tests, db.nextId, db.cycles[c].project, rows)
  {}

  lemma ClonesDiffer(db: Db, c: Id, rows: seq<Id>, t: Id, u: Id)
    requires c in db.cycles && Enumerates(rows, PL.LiveTests(db, c))
    requires TestsOk(db.cases, db.versions, db.cycles, db.tests) && LiveOnce(db.tests)
    requires var cloned := PL.ClonedTests(db.tests, db.nextId, db.cycles[c].project, rows);
      t in cloned && u in cloned && Clash(cloned[t], cloned[u])
    ensures t == u
  {
    ClonedRow(db, c, rows, t);
    ClonedRow(db, c, rows, u);
    hide TestsOk, LiveOnce, Enumerates, PL.ClonedTests;
    SourcesDiffer(db, c, rows, t - db.nextId - 1, u - db.nextId - 1);
  }

  /** Two live tests of one cycle never have the same case. */
  lemma SourcesDiffer(db: Db, c: Id, rows: seq<Id>, i: nat, j: nat)
    requires LiveOnce(db.tests) && Enumerates(rows, PL.LiveTests(db, c)) && i < |rows| && j < |rows|
    requires rows[i] in db.tests && rows[j] in db.tests && db.tests[rows[i]].caseId == db.tests[rows[j]].caseId
    ensures i == j
  {
    assert rows[i] in PL.LiveTests(db, c) && rows[j] in PL.LiveTests(db, c);
    assert Clash(db.tests[rows[i]], db.tests[rows[j]]);
  }

  lemma AddCycleTestChanges(db: Db, cycle: Id, c: Id, next: Db)
    requires PlanningInv(db) && RepositoryOk(db.cases, db.versions) && PL.AddCycleTest(db, cycle, c) == Ok(next)
    requires cycle in db.cycles && PL.Open(db.cycles[cycle].status)
    ensures PlanningChanged(db, next) && next.cycles == db.cycles
  {
    hide RepositoryOk, TestOk, LiveOnce, AttemptsOk, EvidenceKept, CyclesOk, CyclesKept, TestsKept, RetestsInherited,
      PL.AddCycleTest;
    AddedTestOk(db, cycle, c, next);
    AddedTestLive(db, cycle, c, next);
    AddCycleTestShape(db, cycle, c, next);
    AddedTestEvidence(db, next);
  }

  lemma AddCycleTestShape(db: Db, cycle: Id, c: Id, next: Db)
    requires PL.AddCycleTest(db, cycle, c) == Ok(next) && db.nextId !in db.tests
    ensures db.nextId in next.tests && next.tests == db.tests[db.nextId := next.tests[db.nextId]]
    ensures next == db.(tests := next.tests, nextId := db.nextId + 1)
    ensures CyclesKept(db.cycles, next.cycles) && TestsKept(db.tests, next.tests) && RetestsInherited(db, next)
  {}

  lemma AddedTestOk(db: Db, cycle: Id, c: Id, next: Db)
    requires RepositoryOk(db.cases, db.versions) && PL.AddCycleTest(db, cycle, c) == Ok(next)
    requires PL.Open(db.cycles[cycle].status)
    ensures TestOk(db.cases, db.versions, db.cycles, next.tests[db.nextId])
  {}

  lemma AddedTestLive(db: Db, cycle: Id, c: Id, next: Db)
    requires LiveOnce(db.tests) && Below(db.tests, db.nextId) && PL.AddCycleTest(db, cycle, c) == Ok(next)
    ensures LiveOnce(next.tests)
  {}

  lemma AddedTestEvidence(db: Db, next: Db)
    requires AttemptsOk(db.cycles, db.tests, db.attempts) && next.cycles == db.cycles
    requires forall t :: t in db.tests ==> t in next.tests && next.tests[t] == db.tests[t]
    ensures EvidenceKept(db.attempts, db, next)
  {}

  lemma {:induction false} AddEachKeeps(db: Db, cycle: Id, caseIds: seq<Id>, next: Db)
    requires Inv(db) && PL.AddEach(db, cycle, caseIds) == Ok(next)
    requires cycle in db.cycles && PL.Open(db.cycles[cycle].status)
    ensures Inv(next) && Grows(db, next)
    decreases |caseIds|
  {
    if caseIds == [] {
      GrowsReflexive(db);
    } else {
      var mid := PL.AddCycleTest(db, cycle, caseIds[0]).value;
      AddCycleTestChanges(db, cycle, caseIds[0], mid);
      PlanningStep(db, mid);
      hide Inv, Grows, PlanningChanged;
      AddEachKeeps(mid, cycle, caseIds[1..], next);
      GrowsTransitive(db, mid, next);
    }
  }

  /** The same rows in the same cycles; some may have been removed. */
  ghost predicate ScopeKept(db: Db, next: Db) {
    && next.tests.Keys == db.tests.Keys
    && forall t :: t in db.tests ==>
         && next.tests[t].cycleId == db.tests[t].cycleId && next.tests[t].project == db.tests[t].project
         && next.tests[t].caseId == db.tests[t].caseId && next.tests[t].retest == db.tests[t].retest
         && (db.tests[t].removed ==> next.tests[t].removed)
  }

  lemma ScopeFramed(db: Db, next: Db)
    requires LiveOnce(db.tests) && Below(db.tests, db.nextId) && ScopeKept(db, next) && db.nextId <= next.nextId
    ensures LiveOnce(next.tests) && Below(next.tests, next.nextId)
    ensures TestsKept(db.tests, next.tests) && RetestsInherited(db, next)
  {}

  lemma TransitionCycleShape(db: Db, c: Id, target: CycleStatus, expected: nat, reason: bool, next: Db)
    requires PL.TransitionCycle(db, c, target, expected, reason) == Ok(next) && CyclesOk(db.plans, db.cycles)
    requires Below(db.cycles, db.nextId)
    ensures next == db.(cycles := next.cycles, tests := next.tests) && ScopeKept(db, next)
    ensures CyclesOk(db.plans, next.cycles) && CyclesKept(db.cycles, next.cycles) && Below(next.cycles, db.nextId)
  {
    SnapshotFlags(db, c);
    hide PL.SnapshotAll, PL.AllCanSnapshot, PL.AnySnapshotBroken, PL.LiveTests, PL.CycleHasOpenAttempt;
  }

  lemma TransitionCycleChanges(db: Db, c: Id, target: CycleStatus, expected: nat, reason: bool, next: Db)
    requires PlanningInv(db) && RepositoryOk(db.cases, db.versions)
    requires PL.TransitionCycle(db, c, target, expected, reason) == Ok(next)
    ensures PlanningChanged(db, next)
  {
    hide PL.TransitionCycle, CyclesOk, CyclesKept, RepositoryOk, TestOk, AttemptsOk, EvidenceKept, LiveOnce,
      TestsKept, RetestsInherited, ScopeKept, Below;
    forall t | t in next.tests ensures TestOk(next.cases, next.versions, next.cycles, next.tests[t]) {
      TransitionedTestOk(db, c, target, expected, reason, next, t);
    }
    TransitionedEvidence(db, c, target, expected, reason, next);
    TransitionCycleShape(db, c, target, expected, reason, next);
    ScopeFramed(db, next);
  }

  /** A snapshot changes the version and the steps of a test row and nothing else. */
  lemma SnapshotFlags(db: Db, c: Id)
    ensures PL.SnapshotAll(db, c).Keys == db.tests.Keys
    ensures forall t :: t in db.tests ==>
              var after := PL.SnapshotAll(db, c)[t];
              after == db.tests[t].(versionId := after.versionId, steps := after.steps)
  {}

  lemma TransitionedTestOk(db: Db, c: Id, target: CycleStatus, expected: nat, reason: bool, next: Db, t: Id)
    requires TestsOk(db.cases, db.versions, db.cycles, db.tests) && RepositoryOk(db.cases, db.versions)
    requires PL.TransitionCycle(db, c, target, expected, reason) == Ok(next) && t in next.tests
    ensures TestOk(next.cases, next.versions, next.cycles, next.tests[t])
  {
    TransitionedRow(db, c, target, expected, reason, next, t);
    hide PL.TransitionCycle, RepositoryOk, PL.Snapshot, PL.CanSnapshot;
    assert TestOk(db.cases, db.versions, db.cycles, db.tests[t]);
    hide TestsOk, TestOk;
    if target.Active? && PL.LiveIn(db.tests[t], c) {
      SnapshotIsOk(db, db.tests[t]);
    }
    MovedCycleTestOk(db, c, next.cycles[c], db.tests[t], next.tests[t]);
  }

  /** A cycle's new status asks no more of the test than its row has. */
  lemma MovedCycleTestOk(db: Db, c: Id, cyc: Cycle, ct: CycleTest, after: CycleTest)
    requires c in db.cycles && cyc.project == db.cycles[c].project && TestOk(db.cases, db.versions, db.cycles, ct)
    requires after == ct.(versionId := after.versionId, steps := after.steps)
    requires TestOk(db.cases, db.versions, db.cycles, after)
    requires ct.cycleId == c && MustBeSnapshotted(cyc.status) && !after.removed ==>
               after.versionId.Some? || MustBeSnapshotted(db.cycles[c].status)
    ensures TestOk(db.cases, db.versions, db.cycles[c := cyc], after)
  {}

  lemma TransitionedRow(db: Db, c: Id, target: CycleStatus, expected: nat, reason: bool, next: Db, t: Id)
    requires PL.TransitionCycle(db, c, target, expected, reason) == Ok(next) && t in next.tests
    ensures t in db.tests && c in db.cycles && next == db.(tests := next.tests, cycles := next.cycles)
    ensures next.cycles == db.cycles[c := db.cycles[c].(status := target, rev := db.cycles[c].rev + 1)]
    ensures MustBeSnapshotted(target) && !target.Active? ==> MustBeSnapshotted(db.cycles[c].status)
    ensures var taken := target.Active? && PL.LiveIn(db.tests[t], c);
      && (taken ==> PL.CanSnapshot(db, db.tests[t]))
      && next.tests[t] == if taken then PL.Snapshot(db, db.tests[t]) else db.tests[t]
  {
    assert PL.LiveIn(db.tests[t], c) ==> t in PL.LiveTests(db, c);
    hide PL.Snapshot, PL.CanSnapshot, PL.AnySnapshotBroken, PL.CycleHasOpenAttempt;
  }

  lemma SnapshotIsOk(db: Db, ct: CycleTest)
    requires RepositoryOk(db.cases, db.versions) && PL.CanSnapshot(db, ct)
    requires TestOk(db.cases, db.versions, db.cycles, ct)
    ensures var after := PL.Snapshot(db, ct);
      && after == ct.(versionId := after.versionId, steps := after.steps) && after.versionId.Some?
      && TestOk(db.cases, db.versions, db.cycles, after)
  {
    hide TC.Numbered;
    assert CaseOk(db.cases, db.versions, ct.caseId);
    assert VersionOk(db.cases, db.versions, db.cases[ct.caseId].approved.value);
    hide RepositoryOk;
  }

  /** Activation leaves a draft cycle, and a draft cycle has no attempts. */
  lemma TransitionedEvidence(db: Db, c: Id, target: CycleStatus, expected: nat, reason: bool, next: Db)
    requires AttemptsOk(db.cycles, db.tests, db.attempts)
    requires PL.TransitionCycle(db, c, target, expected, reason) == Ok(next)
    ensures EvidenceKept(db.attempts, db, next)
  {}

  lemma RemoveCycleTestChanges(db: Db, t: Id, next: Db)
    requires PlanningInv(db) && PL.RemoveCycleTest(db, t) == Ok(next)
    ensures PlanningChanged(db, next)
  {
    AddedTestEvidenceExcept(db, next);
    hide AttemptsOk, EvidenceKept, LiveOnce, TestsKept, RetestsInherited;
    ScopeFramed(db, next);
    hide ScopeKept;
  }

  lemma AddedTestEvidenceExcept(db: Db, next: Db)
    requires AttemptsOk(db.cycles, db.tests, db.attempts) && next.cycles == db.cycles
    requires forall a :: a in db.attempts ==> SameEvidence(db.tests, next.tests, db.attempts[a].testId)
    ensures EvidenceKept(db.attempts, db, next)
  {}

  lemma RefreshChanges(db: Db, t: Id, next: Db)
    requires PlanningInv(db) && RepositoryOk(db.cases, db.versions)
    requires PL.RefreshCycleTestVersion(db, t) == Ok(next)
    ensures PlanningChanged(db, next)
  {
    hide CyclesOk, CyclesKept, RepositoryOk, TestOk, AttemptsOk, EvidenceKept, LiveOnce, TestsKept, RetestsInherited,
      ScopeKept, PL.RefreshCycleTestVersion;
    RefreshedTestOk(db, t, next);
    RefreshShape(db, t, next);
    AddedTestEvidenceExcept(db, next);
    ScopeFramed(db, next);
  }

  lemma RefreshShape(db: Db, t: Id, next: Db)
    requires PL.RefreshCycleTestVersion(db, t) == Ok(next)
    ensures t in db.tests && t in next.tests && next.tests == db.tests[t := next.tests[t]]
    ensures next == db.(tests := next.tests) && ScopeKept(db, next) && CyclesKept(db.cycles, next.cycles)
    ensures forall a :: a in db.attempts ==> SameEvidence(db.tests, next.tests, db.attempts[a].testId)
  {}

  lemma RefreshedTestOk(db: Db, t: Id, next: Db)
    requires TestsOk(db.cases, db.versions, db.cycles, db.tests) && RepositoryOk(db.cases, db.versions)
    requires PL.RefreshCycleTestVersion(db, t) == Ok(next)
    ensures TestOk(db.cases, db.versions, db.cycles, next.tests[t])
  {}

  // ------------------------------------------------------------------ attempts

  ghost predicate ExecutionInv(db: Db) {
    && Below(db.attempts, db.nextId)
    && AttemptsOk(db.cycles, db.tests, db.attempts)
    && OneOpen(db.attempts)
    && RetestsOk(db.tests, db.attempts)
  }

  lemma StartAttemptChanges(db: Db, now: Time, t: Id, next: Db)
    requires ExecutionInv(db) && EX.StartAttempt(db, now, t) == Ok(next)
    requires TestOk(db.cases, db.versions, db.cycles, db.tests[t])
    ensures ExecutionChanged(db, next)
  {
    hide OneOpen, AttemptsOk, TestOk, EX.StartAttempt, RetestsOk, RetestsInherited, AttemptsKept;
    StartedOneOpen(db, now, t, next);
    StartedAttemptsOk(db, now, t, next);
    StartShape(db, now, t, next);
    FinishedStay(db, next);
  }

  lemma StartShape(db: Db, now: Time, t: Id, next: Db)
    requires EX.StartAttempt(db, now, t) == Ok(next) && Below(db.attempts, db.nextId)
    ensures next == db.(tests := next.tests, attempts := next.attempts, nextId := db.nextId + 1)
    ensures OnlyFlags(db.tests, next.tests) && RetestsInherited(db, next)
    ensures AttemptsKept(db.attempts, next.attempts) && Below(next.attempts, next.nextId)
  {
    hide HasOpenAttempt;
  }

  lemma StartedOneOpen(db: Db, now: Time, t: Id, next: Db)
    requires Below(db.attempts, db.nextId) && OneOpen(db.attempts) && EX.StartAttempt(db, now, t) == Ok(next)
    ensures OneOpen(next.attempts)
  {}

  lemma StartedAttemptsOk(db: Db, now: Time, t: Id, next: Db)
    requires AttemptsOk(db.cycles, db.tests, db.attempts) && EX.StartAttempt(db, now, t) == Ok(next)
    requires TestOk(db.cases, db.versions, db.cycles, db.tests[t])
    ensures AttemptsOk(next.cycles, next.tests, next.attempts)
  {}

  lemma FinishedStay(db: Db, next: Db)
    requires RetestsOk(db.tests, db.attempts) && AttemptsKept(db.attempts, next.attempts)
    requires RetestsInherited(db, next)
    ensures RetestsOk(next.tests, next.attempts)
  {}

  /** A new value for one attempt row, open or finished, that is right in itself. */
  lemma AttemptRowChanges(db: Db, a: Id, row: Attempt, next: Db)
    requires ExecutionInv(db) && a in db.attempts && next == db.(attempts := db.attempts[a := row])
    requires AttemptKept(db.attempts[a], row) && RowOk(row)
    requires row.status.InProgress? ==> db.attempts[a].status.InProgress?
    ensures ExecutionChanged(db, next)
  {
    hide AttemptsOk, OneOpen;
    ChangedRowOk(db.cycles, db.tests, db.attempts, a, row);
    ChangedRowOneOpen(db.attempts, a, row);
    hide AttemptKept, RowOk;
    FinishedStay(db, next);
    hide RetestsOk;
  }

  lemma ChangedRowOk(cycles: map<Id, Cycle>, tests: map<Id, CycleTest>, attempts: map<Id, Attempt>, a: Id, row: Attempt)
    requires AttemptsOk(cycles, tests, attempts) && a in attempts
    requires AttemptKept(attempts[a], row) && RowOk(row)
    requires row.status.InProgress? ==> attempts[a].status.InProgress?
    ensures AttemptsOk(cycles, tests, attempts[a := row])
    ensures AttemptsKept(attempts, attempts[a := row])
  {
    hide RowOk;
    assert AttemptOk(cycles, tests, attempts[a]);
  }

  lemma ChangedRowOneOpen(attempts: map<Id, Attempt>, a: Id, row: Attempt)
    requires OneOpen(attempts) && a in attempts && row.testId == attempts[a].testId
    requires row.status.InProgress? ==> attempts[a].status.InProgress?
    ensures OneOpen(attempts[a := row])
  {
    var after := attempts[a := row];
    forall x, y | x in after && y in after && BothOpen(after[x], after[y]) ensures x == y {
      assert BothOpen(attempts[x], attempts[y]);
    }
  }

  lemma SetStepResultChanges(db: Db, a: Id, index: nat, result: Option<StepResult>, next: Db)
    requires ExecutionInv(db) && EX.SetStepResult(db, a, index, result) == Ok(next)
    ensures ExecutionChanged(db, next)
  {
    assert AttemptOk(db.cycles, db.tests, db.attempts[a]);
    assert Texts(next.attempts[a].steps) == Texts(db.attempts[a].steps);
    hide OneOpen, AttemptsOk, RetestsOk;
    AttemptRowChanges(db, a, next.attempts[a], next);
  }

  lemma CompleteAttemptChanges(db: Db, now: Time, a: Id, over: Option<Verdict>, reason: bool, next: Db)
    requires ExecutionInv(db) && EX.CompleteAttempt(db, now, a, over, reason) == Ok(next)
    ensures ExecutionChanged(db, next)
  {
    hide OneOpen, RetestsOk;
    CompletedRow(db, now, a, over, reason, next);
    hide EX.CompleteAttempt, AttemptsOk, ExecutionInv, AttemptKept, RowOk;
    AttemptRowChanges(db, a, next.attempts[a], next);
  }

  lemma CompletedRow(db: Db, now: Time, a: Id, over: Option<Verdict>, reason: bool, next: Db)
    requires AttemptsOk(db.cycles, db.tests, db.attempts) && EX.CompleteAttempt(db, now, a, over, reason) == Ok(next)
    ensures a in db.attempts && a in next.attempts && next == db.(attempts := db.attempts[a := next.attempts[a]])
    ensures AttemptKept(db.attempts[a], next.attempts[a]) && RowOk(next.attempts[a])
    ensures Terminal(next.attempts[a].status)
  {
    assert AttemptOk(db.cycles, db.tests, db.attempts[a]);
    hide AttemptsOk;
  }

  lemma AbortAttemptChanges(db: Db, now: Time, a: Id, reason: bool, next: Db)
    requires ExecutionInv(db) && EX.AbortAttempt(db, now, a, reason) == Ok(next)
    ensures ExecutionChanged(db, next)
  {
    assert AttemptOk(db.cycles, db.tests, db.attempts[a]);
    hide OneOpen, AttemptsOk, RetestsOk;
    AttemptRowChanges(db, a, next.attempts[a], next);
  }

  lemma RequestRetestChanges(db: Db, t: Id, next: Db)
    requires ExecutionInv(db) && EX.RequestRetest(db, t) == Ok(next)
    ensures ExecutionChanged(db, next)
  {}

  lemma CorrectAttemptChanges(db: Db, now: Time, a: Id, field: string, value: Verdict, reason: bool, next: Db)
    requires ExecutionInv(db) && EX.CorrectAttempt(db, now, a, field, value, reason) == Ok(next)
    ensures ExecutionChanged(db, next)
  {
    assert AttemptOk(db.cycles, db.tests, db.attempts[a]);
    hide OneOpen, AttemptsOk, RetestsOk;
    AttemptRowChanges(db, a, next.attempts[a], next);
  }

  // ------------------------------------------------------------------ any call

  predicate RepositoryCall(call: Call) {
    call.CreateTestCase? || call.UpdateTestCase? || call.TransitionVersion? || call.TransitionLifecycle?
  }

  predicate PlanningCall(call: Call) {
    || call.CreateCycle? || call.CloneCycle? || call.TransitionCycle? || call.RemoveCycleTest?
    || call.RefreshCycleTestVersion?
  }

  predicate ExecutionCall(call: Call) {
    || call.StartAttempt? || call.SetStepResult? || call.CompleteAttempt? || call.AbortAttempt?
    || call.RequestRetest? || call.CorrectAttempt?
  }

  lemma RepositoryCallChanges(db: Db, now: Time, call: Call, next: Db)
    requires RepositoryInv(db) && RepositoryCall(call) && Perform(db, now, call) == Ok(next)
    ensures RepositoryChanged(db, next)
  {
    hide RepositoryInv, RepositoryChanged;
    match call
    case CreateTestCase(p, title, d, pre, steps, auto) => CreateTestCaseChanges(db, p, title, d, pre, steps, auto, next);
    case UpdateTestCase(c, expected, edit) => UpdateTestCaseChanges(db, c, expected, edit, next);
    case TransitionVersion(c, status, expected) => TransitionVersionChanges(db, c, status, expected, next);
    case TransitionLifecycle(c, state, expected) => TransitionLifecycleChanges(db, c, state, expected, next);
  }

  lemma PlanningCallChanges(db: Db, now: Time, call: Call, next: Db)
    requires PlanningInv(db) && RepositoryOk(db.cases, db.versions)
    requires PlanningCall(call) && Perform(db, now, call) == Ok(next)
    ensures PlanningChanged(db, next)
  {
    hide PlanningInv, PlanningChanged, RepositoryOk;
    match call
    case CreateCycle(p, release, env, build) => CreateCycleChanges(db, p, release, env, build, next);
    case CloneCycle(c, env, build, rows) => CloneCycleChanges(db, c, env, build, rows, next);
    case TransitionCycle(c, target, expected, reason) => TransitionCycleChanges(db, c, target, expected, reason, next);
    case RemoveCycleTest(t) => RemoveCycleTestChanges(db, t, next);
    case RefreshCycleTestVersion(t) => RefreshChanges(db, t, next);
  }

  lemma ExecutionCallChanges(db: Db, now: Time, call: Call, next: Db)
    requires ExecutionInv(db) && TestsOk(db.cases, db.versions, db.cycles, db.tests)
    requires ExecutionCall(call) && Perform(db, now, call) == Ok(next)
    ensures ExecutionChanged(db, next)
  {
    hide ExecutionInv, ExecutionChanged, TestOk;
    match call
    case StartAttempt(t) => StartAttemptChanges(db, now, t, next);
    case SetStepResult(a, index, result) => SetStepResultChanges(db, a, index, result, next);
    case CompleteAttempt(a, over, reason) => CompleteAttemptChanges(db, now, a, over, reason, next);
    case AbortAttempt(a, reason) => AbortAttemptChanges(db, now, a, reason, next);
    case RequestRetest(t) => RequestRetestChanges(db, t, next);
    case CorrectAttempt(a, field, value, reason) => CorrectAttemptChanges(db, now, a, field, value, reason, next);
  }

  lemma CreateReleaseStep(db: Db, project: Id, next: Db)
    requires Inv(db) && PL.CreateRelease(db, project) == Ok(next)
    ensures Inv(next) && Grows(db, next)
  {
    hide RepositoryOk, HistoriesOk, CyclesOk, TestsOk, LiveOnce, OneOpen, AttemptsOk, VersionsKept, RetestsOk,
      OldContentKept, CyclesKept, TestsKept, AttemptsKept, CasesKept;
    SameKept(db, next);
  }

  lemma CreatePlanStep(db: Db, project: Id, release: Option<Id>, next: Db)
    requires Inv(db) && PL.CreatePlan(db, project, release) == Ok(next)
    ensures Inv(next) && Grows(db, next)
  {
    hide RepositoryOk, HistoriesOk, TestsOk, LiveOnce, OneOpen, AttemptsOk, VersionsKept, RetestsOk,
      OldContentKept, CyclesKept, TestsKept, AttemptsKept, CasesKept, ReleasesKept;
    SameKept(db, next);
  }

  lemma DeletePlanStep(db: Db, p: Id, next: Db)
    requires Inv(db) && PL.DeletePlan(db, p) == Ok(next)
    ensures Inv(next) && Grows(db, next)
  {
    hide RepositoryOk, HistoriesOk, TestsOk, LiveOnce, OneOpen, AttemptsOk, VersionsKept, RetestsOk,
      OldContentKept, CyclesKept, TestsKept, AttemptsKept, CasesKept, ReleasesKept;
    SameKept(db, next);
  }

  lemma PlanStep(db: Db, now: Time, call: Call, next: Db)
    requires Inv(db) && (call.CreateRelease? || call.CreatePlan? || call.DeletePlan?)
    requires Perform(db, now, call) == Ok(next)
    ensures Inv(next) && Grows(db, next)
  {
    hide Inv, Grows, PL.CreateRelease, PL.CreatePlan, PL.DeletePlan;
    match call
    case CreateRelease(project) => CreateReleaseStep(db, project, next);
    case CreatePlan(project, release) => CreatePlanStep(db, project, release, next);
    case DeletePlan(p) => DeletePlanStep(db, p, next);
  }

  lemma PerformKeeps(db: Db, now: Time, call: Call, next: Db)
    requires Inv(db) && Perform(db, now, call) == Ok(next)
    ensures Inv(next) && Grows(db, next)
  {
    hide RepositoryOk, HistoriesOk, TestsOk, LiveOnce, OneOpen, AttemptsOk, RetestsOk, CyclesOk, Grows,
      RepositoryChanged, PlanningChanged, ExecutionChanged, Below;
    if RepositoryCall(call) {
      RepositoryCallChanges(db, now, call, next);
      RepositoryStep(db, next);
    } else if PlanningCall(call) {
      PlanningCallChanges(db, now, call, next);
      PlanningStep(db, next);
    } else if ExecutionCall(call) {
      ExecutionCallChanges(db, now, call, next);
      ExecutionStep(db, next);
    } else if call.AddCycleTests? {
      AddEachKeeps(db, call.cycle, call.caseIds, next);
    } else {
      PlanStep(db, now, call, next);
    }
  }

  lemma ApplyKeeps(db: Db, now: Time, call: Call)
    requires Inv(db)
    ensures Inv(Apply(db, now, call)) && Grows(db, Apply(db, now, call))
  {
    hide Inv, Grows, Perform;
    match Perform(db, now, call)
    case Ok(next) => PerformKeeps(db, now, call, next);
    case Err(_) => GrowsReflexive(db);
  }
}
