/** Runs from an empty database that reach the states other modules speak of: a reviewed
    version that is rewritten, and the two ways the drilled pass coverage can differ from its
    summary. */
module Examples {
  import opened Common
  import opened Tables
  import opened Evidence
  import opened Runs
  import opened Backlog
  import opened Traceability
  import opened Resolver
  import opened Metrics
  import TC = TestCases
  import PL = Planning
  import EX = Execution

  const PROJECT: Id := 7
  const STEP := TC.StepInput("do", "see", true)
  const ROWS: seq<StepText> := [StepText(1, "do", "see", true)]

  lemma StepIsValid()
    ensures TC.StepRows([STEP]) == ROWS && TC.ValidStep(ROWS[0])
    ensures Strip("A") == "A" && Strip("B") == "B" && Strip("") == ""
  {
    assert Strip("do") == "do" && Strip("see") == "see" by { Unstripped("do"); Unstripped("see"); }
    Unstripped("A");
    Unstripped("B");
  }

  lemma Unstripped(s: string)
    requires s != "" && !IsSpace(s[0]) && !IsSpace(s[|s| - 1])
    ensures Strip(s) == s
  {}

  // ------------------------------------------------------------------ a reviewed version is rewritten

  ghost function Reviewed(title: string): Evidence.History {
    [(0, Call.CreateTestCase(PROJECT, title, None, None, [STEP], Candidate)),
     (0, Call.TransitionVersion(0, VersionStatus.InReview, 1))]
  }

  ghost function Reworked(title: string): Evidence.History {
    [(0, Call.TransitionVersion(0, VersionStatus.Draft, 2)),
     (0, Call.UpdateTestCase(0, 3, TC.Edit(Some(title), None, None, None)))]
  }

  lemma RunTwo(db: Db, a: (Time, Call), b: (Time, Call))
    ensures Run(db, [a, b]) == Apply(Apply(db, a.0, a.1), b.0, b.1)
  {
    hide Apply;
    var calls: Evidence.History := [a, b];
    assert calls[..1] == [a] && [a][..0] == [];
    assert Run(db, []) == db;
    assert Run(db, [a]) == Apply(db, a.0, a.1);
  }

  function InReviewRow(title: string): Version {
    Version(0, 1, VersionStatus.InReview, title, None, None, false, ROWS)
  }

  function InReviewDb(title: string): Db {
    EmptyDb({PROJECT}).(
      cases := map[0 := Case(PROJECT, title, Lifecycle.InReview, 1, None, Candidate, true, 2)],
      versions := map[1 := InReviewRow(title)], nextId := 2)
  }

  lemma ReviewedDb()
    ensures Run(EmptyDb({PROJECT}), Reviewed("A")) == InReviewDb("A")
  {
    StepIsValid();
    hide Strip, TC.StepRows;
    var db := EmptyDb({PROJECT});
    RunTwo(db, Reviewed("A")[0], Reviewed("A")[1]);
    hide Run;
    var drafted := db.(cases := map[0 := Case(PROJECT, "A", Lifecycle.Draft, 1, None, Candidate, true, 1)],
                       versions := map[1 := InReviewRow("A").(status := VersionStatus.Draft)], nextId := 2);
    assert Apply(db, 0, Reviewed("A")[0].1) == drafted;
    assert TC.Reviewable(drafted.versions[1]) by { assert ROWS[0] in ROWS; }
    hide TC.Reviewable;
    assert Apply(drafted, 0, Reviewed("A")[1].1) == InReviewDb("A");
  }

  lemma ReworkedDb()
    ensures var after := Run(InReviewDb("A"), Reworked("B"));
      1 in after.versions && after.versions[1].title == "B" && after.versions[1].status.Draft?
  {
    StepIsValid();
    hide Strip;
    var db := InReviewDb("A");
    RunTwo(db, Reworked("B")[0], Reworked("B")[1]);
    hide Run;
    var draft := db.(cases := db.cases[0 := db.cases[0].(lifecycle := Lifecycle.Draft, rev := 3)],
                     versions := db.versions[1 := db.versions[1].(status := VersionStatus.Draft)]);
    assert Apply(db, 0, Reworked("B")[0].1) == draft;
    var edit := TC.Edit(Some("B"), None, None, None);
    assert TC.Controlled(draft.versions[1], edit) by {
      assert "title" in TC.ChangedFields(draft.versions[1], edit) * TC.CONTROLLED_VERSION_FIELDS;
    }
    hide TC.Controlled;
    assert Perform(draft, 0, Reworked("B")[1].1) == Ok(TC.EditDraft(draft, 0, TC.NewContent(draft.versions[1], edit)));
  }

  /** Four calls after which a version that had left Draft has other content: it is created,
      sent to review, sent back, and edited. */
  lemma ReviewedThenRewritten()
    ensures var before, after := Reached({PROJECT}, Reviewed("A")), Reached({PROJECT}, Reviewed("A") + Reworked("B"));
      && 1 in before.versions && before.versions[1].status.InReview? && Rewritable(before, 1)
      && 1 in after.versions && ContentOf(after.versions[1]) != ContentOf(before.versions[1])
  {
    ReviewedDb();
    ReworkedDb();
    RunAppend(EmptyDb({PROJECT}), Reviewed("A"), Reworked("B"));
    hide Run, Reviewed, Reworked;
  }

  // ------------------------------------------------------------------ two approved cases in one active cycle

  lemma OneAct(w: World, now: Time, act: Act)
    ensures RunActs(w, [(now, act)]) == Step(w, now, act)
  {
    hide Step;
    var acts: seq<(Time, Act)> := [(now, act)];
    assert acts[..0] == [];
    assert RunActs(w, []) == w;
  }

  lemma {:induction false} ActsAppend(w: World, a: seq<(Time, Act)>, b: seq<(Time, Act)>)
    ensures RunActs(w, a + b) == RunActs(RunActs(w, a), b)
    decreases |b|
  {
    hide Step;
    if b == [] {
      assert a + b == a;
    } else {
      assert (a + b)[..|a + b| - 1] == a + b[..|b| - 1];
      ActsAppend(w, a, b[..|b| - 1]);
    }
  }

  /** An approved case at the next id, with its version after it. */
  function Approve(db: Db, title: string): Db {
    var c, v := db.nextId, db.nextId + 1;
    db.(cases := db.cases[c := Case(PROJECT, title, Lifecycle.Approved, v, Some(v), Candidate, true, 3)],
        versions := db.versions[v := Version(c, 1, VersionStatus.Approved, title, None, None, true, ROWS)],
        nextId := db.nextId + 2)
  }

  ghost function ApproveActs(c: Id, title: string): seq<(Time, Act)> {
    [(0, Core(Call.CreateTestCase(PROJECT, title, None, None, [STEP], Candidate)))]
    + [(0, Core(Call.TransitionVersion(c, VersionStatus.InReview, 1)))]
    + [(0, Core(Call.TransitionVersion(c, VersionStatus.Approved, 2)))]
  }

  lemma Approving(w: World, title: string)
    requires PROJECT in w.db.projects && Strip(title) == title != ""
    ensures RunActs(w, ApproveActs(w.db.nextId, title)) == w.(db := Approve(w.db, title))
  {
    var c := w.db.nextId;
    var acts := ApproveActs(c, title);
    ActsAppend(w, acts[..2], acts[2..]);
    ActsAppend(w, acts[..1], acts[1..2]);
    assert acts[..1] + acts[1..2] == acts[..2] && acts[..2] + acts[2..] == acts;
    OneAct(w, 0, acts[0].1);
    var one := Step(w, 0, acts[0].1);
    OneAct(one, 0, acts[1].1);
    var two := Step(one, 0, acts[1].1);
    OneAct(two, 0, acts[2].1);
    hide RunActs;
    ApprovingDb(w.db, title);
    hide Apply;
  }

  lemma ApprovingDb(db: Db, title: string)
    requires PROJECT in db.projects && Strip(title) == title != ""
    ensures var acts := ApproveActs(db.nextId, title);
      Apply(Apply(Apply(db, 0, acts[0].1.call), 0, acts[1].1.call), 0, acts[2].1.call) == Approve(db, title)
  {
    StepIsValid();
    hide Strip, TC.StepRows, TC.ValidStep;
    var c, v := db.nextId, db.nextId + 1;
    var row := Version(c, 1, VersionStatus.Draft, title, None, None, false, ROWS);
    var tc := Case(PROJECT, title, Lifecycle.Draft, v, None, Candidate, true, 1);
    var one := db.(cases := db.cases[c := tc], versions := db.versions[v := row], nextId := db.nextId + 2);
    assert Apply(db, 0, ApproveActs(c, title)[0].1.call) == one;
    assert TC.Reviewable(row) by { assert ROWS[0] in ROWS; }
    hide TC.Reviewable;
    var two := one.(cases := one.cases[c := tc.(lifecycle := Lifecycle.InReview, rev := 2)],
                    versions := one.versions[v := row.(status := VersionStatus.InReview)]);
    assert Apply(one, 0, ApproveActs(c, title)[1].1.call) == two;
    assert Apply(two, 0, ApproveActs(c, title)[2].1.call) == Approve(db, title);
  }

  function Cases(): Db {
    Approve(Approve(EmptyDb({PROJECT}), "A"), "B")
  }

  const CONTEXT := RunContext(4, None, "default", "unspecified")

  /** A plan, a draft cycle, and a test for each case. */
  function Drafted(): Db {
    Cases().(plans := map[4 := Plan(PROJECT, None)], cycles := map[5 := Cycle(PROJECT, CycleStatus.Draft, CONTEXT, 1)],
             tests := map[6 := PL.NewTest(5, PROJECT, 0), 7 := PL.NewTest(5, PROJECT, 2)], nextId := 8)
  }

  function Snapshotted(c: Id, v: Id): CycleTest {
    CycleTest(5, PROJECT, c, Some(v), ROWS, false, false)
  }

  function Activated(): Db {
    Drafted().(cycles := map[5 := Cycle(PROJECT, CycleStatus.Active, CONTEXT, 2)],
               tests := map[6 := Snapshotted(0, 1), 7 := Snapshotted(2, 3)])
  }

  ghost function ScopeActs(): seq<(Time, Act)> {
    [(0, Core(Call.CreatePlan(PROJECT, None)))] + [(0, Core(Call.CreateCycle(4, None, "", "")))]
    + [(0, Core(Call.AddCycleTests(5, [0, 2])))] + [(0, Core(Call.TransitionCycle(5, CycleStatus.Active, 1, false)))]
  }

  lemma ActsStep(w: World, acts: seq<(Time, Act)>, now: Time, act: Act)
    ensures RunActs(w, acts + [(now, act)]) == Step(RunActs(w, acts), now, act)
  {
    hide Step;
    ActsAppend(w, acts, [(now, act)]);
    OneAct(RunActs(w, acts), now, act);
  }

  lemma ScopingDb()
    ensures var acts := ScopeActs();
      Apply(Apply(Apply(Apply(Cases(), 0, acts[0].1.call), 0, acts[1].1.call), 0, acts[2].1.call), 0, acts[3].1.call)
      == Activated()
  {
    hide Apply;
    DraftingDb();
    ActivatingDb();
  }

  lemma DraftingDb()
    ensures var acts := ScopeActs();
      Apply(Apply(Apply(Cases(), 0, acts[0].1.call), 0, acts[1].1.call), 0, acts[2].1.call) == Drafted()
  {
    StepIsValid();
    hide Strip;
    var one := Cases().(plans := map[4 := Plan(PROJECT, None)], nextId := 5);
    assert Apply(Cases(), 0, ScopeActs()[0].1.call) == one;
    var two := one.(cycles := map[5 := Cycle(PROJECT, CycleStatus.Draft, CONTEXT, 1)], nextId := 6);
    assert Apply(one, 0, ScopeActs()[1].1.call) == two;
    AddingDb(two);
  }

  lemma AddingDb(two: Db)
    requires two == Cases().(plans := map[4 := Plan(PROJECT, None)],
                             cycles := map[5 := Cycle(PROJECT, CycleStatus.Draft, CONTEXT, 1)], nextId := 6)
    ensures Apply(two, 0, Call.AddCycleTests(5, [0, 2])) == Drafted()
  {
    assert !PL.HasCase(two, 5, 0);
    var three := two.(tests := map[6 := PL.NewTest(5, PROJECT, 0)], nextId := 7);
    assert PL.AddCycleTest(two, 5, 0) == Ok(three);
    assert !PL.HasCase(three, 5, 2);
    assert PL.AddCycleTest(three, 5, 2) == Ok(Drafted());
    hide PL.AddCycleTest;
    assert [0, 2][1..] == [2] && [2][1..] == [];
    assert PL.AddEach(Drafted(), 5, []) == Ok(Drafted());
    assert PL.AddEach(three, 5, [2]) == Ok(Drafted());
  }

  lemma ActivatingDb()
    ensures Apply(Drafted(), 0, ScopeActs()[3].1.call) == Activated()
  {
    var db := Drafted();
    hide PL.SnapshotAll, PL.AllCanSnapshot, PL.AnySnapshotBroken, PL.LiveTests;
    DraftedTests();
  }

  lemma DraftedTests()
    ensures PL.LiveTests(Drafted(), 5) == {6, 7} && PL.SnapshotAll(Drafted(), 5) == Activated().tests
    ensures PL.AllCanSnapshot(Drafted(), 5) && !PL.AnySnapshotBroken(Drafted(), 5)
  {}

  // ------------------------------------------------------------------ a requirement, and what its test shows

  ghost function CoverActs(): seq<(Time, Act)> {
    [(0, CreateRequirement(PROJECT, RequirementStatus.Active, None))]
    + [(0, CreateLink(PROJECT, Entity(RequirementKind, 0), Entity(CaseKind, 0)))]
  }

  function CoveredWorld(db: Db): World {
    EmptyWorld({PROJECT}).(
      db := db,
      requirements := map[0 := Requirement(PROJECT, RequirementStatus.Active, None)],
      links := map[1 := Link(PROJECT, Entity(RequirementKind, 0), Entity(CaseKind, 0), Relationship.Covers, false)],
      next := 2)
  }

  ghost function SetupActs(): seq<(Time, Act)> {
    ApproveActs(0, "A") + ApproveActs(2, "B") + ScopeActs() + CoverActs()
  }

  /** Twelve acts: two approved cases in an active cycle, the first covering a requirement. */
  lemma SetUp()
    ensures ReachedWorld({PROJECT}, SetupActs()) == CoveredWorld(Activated())
  {
    StepIsValid();
    hide RunActs, Step, Strip, Approve, ApproveActs, ScopeActs, CoverActs;
    var w := EmptyWorld({PROJECT});
    ActsAppend(w, ApproveActs(0, "A") + ApproveActs(2, "B") + ScopeActs(), CoverActs());
    ActsAppend(w, ApproveActs(0, "A") + ApproveActs(2, "B"), ScopeActs());
    ActsAppend(w, ApproveActs(0, "A"), ApproveActs(2, "B"));
    Approving(w, "A");
    var one := w.(db := Approve(w.db, "A"));
    assert one.db.nextId == 2 && PROJECT in one.db.projects by { ApproveNext(w.db, "A"); }
    Approving(one, "B");
    ScopingWorld();
    CoveringWorld();
  }

  lemma ApproveNext(db: Db, title: string)
    ensures Approve(db, title).nextId == db.nextId + 2 && Approve(db, title).projects == db.projects
  {}

  lemma ScopingWorld()
    ensures RunActs(EmptyWorld({PROJECT}).(db := Cases()), ScopeActs()) == EmptyWorld({PROJECT}).(db := Activated())
  {
    var w := EmptyWorld({PROJECT}).(db := Cases());
    var acts := ScopeActs();
    ActsStep(w, acts[..3], 0, acts[3].1);
    ActsStep(w, acts[..2], 0, acts[2].1);
    ActsStep(w, acts[..1], 0, acts[1].1);
    OneAct(w, 0, acts[0].1);
    assert acts[..1] == [(0, acts[0].1)] && acts[..1] + [(0, acts[1].1)] == acts[..2];
    assert acts[..2] + [(0, acts[2].1)] == acts[..3] && acts[..3] + [(0, acts[3].1)] == acts;
    hide RunActs;
    ScopingDb();
    hide Apply, Cases, Activated;
  }

  lemma CoveringWorld()
    ensures RunActs(EmptyWorld({PROJECT}).(db := Activated()), CoverActs()) == CoveredWorld(Activated())
  {
    var w := EmptyWorld({PROJECT}).(db := Activated());
    var acts := CoverActs();
    ActsStep(w, acts[..1], 0, acts[1].1);
    OneAct(w, 0, acts[0].1);
    assert acts[..1] == [(0, acts[0].1)] && acts[..1] + [(0, acts[1].1)] == acts;
    hide RunActs;
  }

  ghost function AttemptActs(t: Id, a: Id, verdict: Verdict): seq<(Time, Act)> {
    [(0, Core(Call.StartAttempt(t)))] + [(0, Core(Call.CompleteAttempt(a, Some(verdict), true)))]
  }

  /** The test run once, ended by hand with this verdict. */
  function Attempted(db: Db, t: Id, verdict: Verdict): Db {
    if t !in db.tests || db.tests[t].versionId.None? || db.tests[t].cycleId !in db.cycles then db else
    var ct := db.tests[t];
    db.(attempts := db.attempts[db.nextId := Attempt(
          t, ct.cycleId, ct.project, ct.versionId.value, db.cycles[ct.cycleId].context, FreshMarks(ct.steps),
          verdict, Some(verdict), 0, Some(0), true, [])],
        nextId := db.nextId + 1)
  }

  lemma Attempting(w: World, t: Id, verdict: Verdict)
    requires t in w.db.tests && w.db.tests[t].versionId.Some? && !w.db.tests[t].retest && Terminal(verdict)
    requires w.db.tests[t].cycleId in w.db.cycles && w.db.cycles[w.db.tests[t].cycleId].status.Active?
    requires !HasAttempt(w.db.attempts, t)
    ensures RunActs(w, AttemptActs(t, w.db.nextId, verdict)) == w.(db := Attempted(w.db, t, verdict))
  {
    var a := w.db.nextId;
    ActsStep(w, [(0, Core(Call.StartAttempt(t)))], 0, AttemptActs(t, a, verdict)[1].1);
    OneAct(w, 0, Core(Call.StartAttempt(t)));
    hide RunActs;
    AttemptingDb(w.db, t, verdict);
    hide Apply, Attempted;
  }

  lemma AttemptingDb(db: Db, t: Id, verdict: Verdict)
    requires t in db.tests && db.tests[t].versionId.Some? && !db.tests[t].retest && Terminal(verdict)
    requires db.tests[t].cycleId in db.cycles && db.cycles[db.tests[t].cycleId].status.Active?
    requires !HasAttempt(db.attempts, t)
    ensures Apply(Apply(db, 0, Call.StartAttempt(t)), 0, Call.CompleteAttempt(db.nextId, Some(verdict), true))
            == Attempted(db, t, verdict)
  {
    hide Apply;
    StartingDb(db, t);
    EndingDb(db, t, verdict);
  }

  function Opened(db: Db, t: Id): Db
    requires t in db.tests && db.tests[t].versionId.Some? && db.tests[t].cycleId in db.cycles
  {
    var ct := db.tests[t];
    db.(attempts := db.attempts[db.nextId := Attempt(
          t, ct.cycleId, ct.project, ct.versionId.value, db.cycles[ct.cycleId].context, FreshMarks(ct.steps),
          Verdict.InProgress, None, 0, None, false, [])],
        nextId := db.nextId + 1)
  }

  lemma StartingDb(db: Db, t: Id)
    requires t in db.tests && db.tests[t].versionId.Some? && !db.tests[t].retest
    requires db.tests[t].cycleId in db.cycles && db.cycles[db.tests[t].cycleId].status.Active?
    requires !HasAttempt(db.attempts, t)
    ensures Apply(db, 0, Call.StartAttempt(t)) == Opened(db, t)
  {
    assert !HasOpenAttempt(db.attempts, t);
    assert db.tests[t := db.tests[t].(retest := false)] == db.tests;
    hide HasOpenAttempt;
  }

  lemma EndingDb(db: Db, t: Id, verdict: Verdict)
    requires t in db.tests && db.tests[t].versionId.Some? && db.tests[t].cycleId in db.cycles && Terminal(verdict)
    ensures Apply(Opened(db, t), 0, Call.CompleteAttempt(db.nextId, Some(verdict), true)) == Attempted(db, t, verdict)
  {
    hide EX.CompleteAttempt, FreshMarks;
    var open := Opened(db, t);
    EndedByHand(open, db.nextId, verdict);
    assert open.attempts[db.nextId := EX.Finished(open.attempts[db.nextId], 0, verdict, true)]
        == Attempted(db, t, verdict).attempts;
  }

  lemma EndedByHand(db: Db, a: Id, verdict: Verdict)
    requires a in db.attempts && db.attempts[a].testId in db.tests && db.attempts[a].status.InProgress?
    requires Terminal(verdict)
    ensures EX.CompleteAttempt(db, 0, a, Some(verdict), true)
         == Ok(db.(attempts := db.attempts[a := EX.Finished(db.attempts[a], 0, verdict, true)]))
  {}

  // ------------------------------------------------------------------ what the reports say of it

  lemma ShownAfter(db: Db, t: Id, a: Id)
    requires t in db.tests && !db.tests[t].retest && a in db.attempts && FinishedOn(db.attempts[a], t)
    requires db.attempts[a].corrections == [] && db.attempts[a].overall.Some?
    requires forall b :: b in db.attempts && db.attempts[b].testId == t ==> b == a
    ensures Displayed(db, t) == db.attempts[a].overall.value
  {
    assert IsAuthoritative(db.attempts, t, a);
    AuthoritativeIs(db.attempts, t, a);
  }

  lemma ShownNever(db: Db, t: Id)
    requires t in db.tests && !db.tests[t].retest && !HasAttempt(db.attempts, t)
    ensures Displayed(db, t) == NotRun
  {
    hide KeyLess;
  }

  /** The example's scope: tests 6 and 7 qualify, and only 6 is for requirement 0. */
  lemma ScopeOf(db: Db)
    requires db == Activated().(attempts := db.attempts, nextId := db.nextId)
    ensures var w, s := CoveredWorld(db), WholeProject(PROJECT);
      && (forall t :: QualifyingTest(w, s, t) <==> t == 6 || t == 7)
      && (forall t :: TestsRequirement(w, s, 0, t) <==> t == 6)
      && 0 in ActiveRequirements(w, s.project)
  {
    var w, s := CoveredWorld(db), WholeProject(PROJECT);
    forall t
      ensures QualifyingTest(w, s, t) <==> t == 6 || t == 7
      ensures TestsRequirement(w, s, 0, t) <==> t == 6
    {
      QualifyingOf(db, t);
    }
    hide QualifyingTest, TestsRequirement;
  }

  lemma QualifyingOf(db: Db, t: Id)
    requires db == Activated().(attempts := db.attempts, nextId := db.nextId)
    ensures var w, s := CoveredWorld(db), WholeProject(PROJECT);
      && (QualifyingTest(w, s, t) <==> t == 6 || t == 7)
      && (TestsRequirement(w, s, 0, t) <==> t == 6)
  {
    if t in db.tests {
      OnlyFirstCovered(db, db.tests[t].caseId);
    }
    hide IsCoveredBy;
  }

  lemma OnlyFirstCovered(db: Db, c: Id)
    requires db == Activated().(attempts := db.attempts, nextId := db.nextId)
    ensures IsCoveredBy(CoveredWorld(db), PROJECT, 0, c) <==> c == 0
  {
    var w := CoveredWorld(db);
    assert LinksTo(w.links[1], PROJECT, Entity(RequirementKind, 0), Entity(CaseKind, 0));
  }

  /** A run in which the drill-down counts a requirement the summary does not: its one test
      passed, while another test of the scope has not been run. */
  lemma PassedInAnUnfinishedScope()
    ensures var w, s := ReachedWorld({PROJECT}, SetupActs() + AttemptActs(6, 8, Passed)), WholeProject(PROJECT);
      !ScopeAllGreen(w, s) && EarnedAlone(w, s, 0) && !Agrees(w, s, M08)
  {
    hide ReachedWorld, SetupActs, AttemptActs, CoveredWorld, Attempted, Activated, ScopeAllGreen, EarnedAlone, Agrees,
      QualifyingTest, TestsRequirement, ActiveRequirements, ShownFor;
    PassedRun();
    var db := Attempted(Activated(), 6, Passed);
    AttemptedKeeps(Activated(), 6, Passed);
    ScopeOf(db);
    PassedShown();
    PassedAlone(CoveredWorld(db), WholeProject(PROJECT));
  }

  lemma AttemptedKeeps(db: Db, t: Id, verdict: Verdict)
    ensures var after := Attempted(db, t, verdict);
      after == db.(attempts := after.attempts, nextId := after.nextId)
  {}

  lemma PassedShown()
    ensures var w := CoveredWorld(Attempted(Activated(), 6, Passed));
      ShownFor(w, 6) == Passed && ShownFor(w, 7) == NotRun
  {
    var db := Attempted(Activated(), 6, Passed);
    ShownAfter(db, 6, 8);
    ShownNever(db, 7);
    hide Displayed;
  }

  lemma PassedAlone(w: World, s: Scope)
    requires forall t :: QualifyingTest(w, s, t) <==> t == 6 || t == 7
    requires forall t :: TestsRequirement(w, s, 0, t) <==> t == 6
    requires 0 in ActiveRequirements(w, s.project) && ShownFor(w, 6) == Passed && ShownFor(w, 7) == NotRun
    ensures !ScopeAllGreen(w, s) && EarnedAlone(w, s, 0) && !Agrees(w, s, M08)
  {
    hide Agrees, QualifyingTest, TestsRequirement, ActiveRequirements, ShownFor;
    assert QualifyingTest(w, s, 7) && TestsRequirement(w, s, 0, 6);
    PassCoverageAgreesExactly(w, s);
  }

  lemma PassedRun()
    ensures ReachedWorld({PROJECT}, SetupActs() + AttemptActs(6, 8, Passed))
            == CoveredWorld(Attempted(Activated(), 6, Passed))
  {
    hide RunActs, SetupActs, AttemptActs;
    SetUp();
    ActsAppend(EmptyWorld({PROJECT}), SetupActs(), AttemptActs(6, 8, Passed));
    Attempting(CoveredWorld(Activated()), 6, Passed);
  }

  /** A run in which the summary counts a requirement the drill-down does not: the scope is
      green, but the requirement's one test was skipped. */
  lemma SkippedInAGreenScope()
    ensures var acts := SetupActs() + AttemptActs(6, 8, Skipped) + AttemptActs(7, 9, Passed);
      var w, s := ReachedWorld({PROJECT}, acts), WholeProject(PROJECT);
      ScopeAllGreen(w, s) && AllSkipped(w, s, 0) && !Agrees(w, s, M08)
  {
    hide ReachedWorld, SetupActs, AttemptActs, CoveredWorld, Attempted, Activated, ScopeAllGreen, AllSkipped, Agrees,
      QualifyingTest, TestsRequirement, ActiveRequirements, ShownFor;
    SkippedRun();
    var one := Attempted(Activated(), 6, Skipped);
    AttemptedKeeps(Activated(), 6, Skipped);
    AttemptedKeeps(one, 7, Passed);
    ScopeOf(Attempted(one, 7, Passed));
    SkippedShown();
    GreenBySkipping(CoveredWorld(Attempted(one, 7, Passed)), WholeProject(PROJECT));
  }

  lemma SkippedShown()
    ensures var w := CoveredWorld(Attempted(Attempted(Activated(), 6, Skipped), 7, Passed));
      ShownFor(w, 6) == Skipped && ShownFor(w, 7) == Passed
  {
    var db := Attempted(Attempted(Activated(), 6, Skipped), 7, Passed);
    ShownAfter(db, 6, 8);
    ShownAfter(db, 7, 9);
    hide Displayed;
  }

  lemma GreenBySkipping(w: World, s: Scope)
    requires forall t :: QualifyingTest(w, s, t) <==> t == 6 || t == 7
    requires forall t :: TestsRequirement(w, s, 0, t) <==> t == 6
    requires 0 in ActiveRequirements(w, s.project) && ShownFor(w, 6) == Skipped && ShownFor(w, 7) == Passed
    ensures ScopeAllGreen(w, s) && AllSkipped(w, s, 0) && !Agrees(w, s, M08)
  {
    hide Agrees, QualifyingTest, TestsRequirement, ActiveRequirements, ShownFor;
    assert QualifyingTest(w, s, 7) && TestsRequirement(w, s, 0, 6);
    PassCoverageAgreesExactly(w, s);
  }

  lemma SkippedRun()
    ensures ReachedWorld({PROJECT}, SetupActs() + AttemptActs(6, 8, Skipped) + AttemptActs(7, 9, Passed))
            == CoveredWorld(Attempted(Attempted(Activated(), 6, Skipped), 7, Passed))
  {
    hide RunActs, SetupActs, AttemptActs;
    SetUp();
    ActsAppend(EmptyWorld({PROJECT}), SetupActs() + AttemptActs(6, 8, Skipped), AttemptActs(7, 9, Passed));
    ActsAppend(EmptyWorld({PROJECT}), SetupActs(), AttemptActs(6, 8, Skipped));
    Attempting(CoveredWorld(Activated()), 6, Skipped);
    Attempting(CoveredWorld(Attempted(Activated(), 6, Skipped)), 7, Passed);
  }
}
