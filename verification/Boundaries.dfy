/** Project boundaries: whatever the services do, a row only ever names rows of its own
    project (the checks in backend/app/domain/test_case/service.py, scenarios.py, backlog.py
    and execution.py). */
module Boundaries {
  import opened Common
  import opened Tables
  import opened Evidence
  import opened Preservation
  import opened Backlog
  import opened Traceability
  import TC = TestCases

  // ------------------------------------------------------------------ what names what

  ghost predicate FoldersHome(folderOf: map<Id, Id>, folders: map<Id, Id>, cases: map<Id, Case>) {
    forall c :: c in folderOf ==>
      c in cases && folderOf[c] in folders && folders[folderOf[c]] == cases[c].project
  }

  ghost predicate ScenarioHome(scenarioOf: map<Id, Id>, scenarios: map<Id, Scenario>, cases: map<Id, Case>) {
    forall c :: c in scenarioOf ==>
      c in cases && scenarioOf[c] in scenarios && scenarios[scenarioOf[c]].project == cases[c].project
  }

  ghost predicate ScenariosHome(scenarios: map<Id, Scenario>, requirements: map<Id, Requirement>) {
    forall s :: s in scenarios && scenarios[s].requirement.Some? ==>
      && scenarios[s].requirement.value in requirements
      && requirements[scenarios[s].requirement.value].project == scenarios[s].project
  }

  ghost predicate RequirementsHome(requirements: map<Id, Requirement>, releases: map<Id, Id>) {
    forall r :: r in requirements && requirements[r].release.Some? ==>
      requirements[r].release.value in releases && releases[requirements[r].release.value] == requirements[r].project
  }

  ghost predicate DefectsHome(defects: map<Id, Defect>, releases: map<Id, Id>) {
    forall d :: d in defects && defects[d].release.Some? ==>
      defects[d].release.value in releases && releases[defects[d].release.value] == defects[d].project
  }

  /** Each attempt and defect pair once, and both of one project. */
  ghost predicate RaisedHome(raised: seq<(Id, Id)>, attempts: map<Id, Attempt>, defects: map<Id, Defect>) {
    && NoDuplicates(raised)
    && forall p :: p in raised ==>
         p.0 in attempts && p.1 in defects && attempts[p.0].project == defects[p.1].project
  }

  ghost predicate AtHome(w: World) {
    && FoldersHome(w.folderOf, w.folders, w.db.cases)
    && ScenarioHome(w.scenarioOf, w.scenarios, w.db.cases)
    && ScenariosHome(w.scenarios, w.requirements)
    && RequirementsHome(w.requirements, w.db.releases)
    && DefectsHome(w.defects, w.db.releases)
    && RaisedHome(w.raised, w.db.attempts, w.defects)
  }

  // ------------------------------------------------------------------ acts of the machine beneath

  lemma HomeUnderGrowth(before: World, after: World)
    requires AtHome(before) && Grows(before.db, after.db) && after == before.(db := after.db)
    ensures AtHome(after)
  {
    hide VersionsKept, OldContentKept, CyclesKept, TestsKept, Grows;
    GrowthKeepsProjects(before.db, after.db);
  }

  lemma GrowthKeepsProjects(before: Db, after: Db)
    requires Grows(before, after)
    ensures CasesKept(before.cases, after.cases) && ReleasesKept(before.releases, after.releases)
    ensures forall a :: a in before.attempts ==>
              a in after.attempts && after.attempts[a].project == before.attempts[a].project
  {
    hide VersionsKept, OldContentKept, CyclesKept, TestsKept;
    forall a | a in before.attempts
      ensures a in after.attempts && after.attempts[a].project == before.attempts[a].project
    {
      AttemptEndKept(before.attempts, after.attempts, a);
    }
  }

  lemma DbStepHome(before: World, after: World, now: Time, call: Call)
    requires Inv(before.db) && AtHome(before) && after == before.(db := Apply(before.db, now, call))
    ensures AtHome(after)
  {
    hide Inv, Grows, AtHome, Apply;
    ApplyKeeps(before.db, now, call);
    HomeUnderGrowth(before, after);
  }

  // ------------------------------------------------------------------ where a case is filed

  /** Filing one case under a place of its own project, or under none. */
  lemma FiledHome(w: World, c: Id, project: Id, folder: Option<Id>, scenario: Option<Id>)
    requires AtHome(w) && c in w.db.cases && w.db.cases[c].project == project
    requires KnownFolder(w, project, folder) && KnownScenario(w, project, scenario)
    ensures AtHome(w.(folderOf := Filed(w.folderOf, c, folder)))
    ensures AtHome(w.(scenarioOf := Filed(w.scenarioOf, c, scenario)))
    ensures AtHome(w.(folderOf := Filed(w.folderOf, c, folder), scenarioOf := Filed(w.scenarioOf, c, scenario)))
  {
    hide ScenariosHome, RequirementsHome, DefectsHome, RaisedHome;
  }

  lemma CreateCaseHome(
    w: World, now: Time, p: Id, title: string, d: Option<string>, pre: Option<string>, steps: seq<TC.StepInput>,
    auto: Automation, folder: Option<Id>, scenario: Option<Id>, next: World)
    requires Inv(w.db) && AtHome(w)
    requires Backlog.CreateTestCase(w, p, title, d, pre, steps, auto, folder, scenario) == Ok(next)
    ensures AtHome(next)
  {
    var call := Call.CreateTestCase(p, title, d, pre, steps, auto);
    var mid := w.(db := Apply(w.db, now, call));
    DbStepHome(w, mid, now, call);
    CreatedCase(w.db, p, title, d, pre, steps, auto);
    hide Inv, AtHome, TC.CreateTestCase;
    FiledHome(mid, w.db.nextId, p, folder, scenario);
  }

  lemma CreatedCase(
    db: Db, p: Id, title: string, d: Option<string>, pre: Option<string>, steps: seq<TC.StepInput>, auto: Automation)
    requires TC.CreateTestCase(db, p, title, d, pre, steps, auto).Ok?
    ensures var next := TC.CreateTestCase(db, p, title, d, pre, steps, auto).value;
      db.nextId in next.cases && next.cases[db.nextId].project == p
  {}

  lemma EditCaseHome(
    w: World, now: Time, c: Id, expected: nat, edit: TC.Edit, move: Option<Option<Id>>, next: World)
    requires Inv(w.db) && AtHome(w) && Backlog.UpdateTestCase(w, c, expected, edit, move) == Ok(next)
    ensures AtHome(next)
  {
    hide Inv, AtHome, TC.UpdateTestCase, Grows;
    var call := Call.UpdateTestCase(c, expected, edit);
    var mid := w.(db := Apply(w.db, now, call));
    DbStepHome(w, mid, now, call);
    ApplyKeeps(w.db, now, call);
    if move.Some? && c in w.db.cases && move.value != FolderOf(w, c) {
      GrowthKeepsProjects(w.db, mid.db);
      FiledHome(mid, c, w.db.cases[c].project, move.value, None);
    }
  }

  lemma SetScenarioHome(w: World, c: Id, scenario: Option<Id>, next: World)
    requires AtHome(w) && Backlog.SetTestCaseScenario(w, c, scenario) == Ok(next)
    ensures AtHome(next)
  {
    hide AtHome;
    FiledHome(w, c, w.db.cases[c].project, None, scenario);
  }

  // ------------------------------------------------------------------ the other acts

  lemma ScenarioActHome(w: World, now: Time, act: Act, next: World)
    requires AtHome(w) && RowIds(w) && Outcome(w, now, act) == Ok(next)
    requires act.CreateScenario? || act.UpdateScenario? || act.ArchiveScenario?
    ensures AtHome(next)
  {
    hide AtHome, Backlog.CreateScenario, Backlog.UpdateScenario, Backlog.ArchiveScenario;
    match act
    case CreateScenario(p, title, r) => CreateScenarioHome(w, p, title, r, next);
    case UpdateScenario(s, r) => UpdateScenarioHome(w, s, r, next);
    case ArchiveScenario(s, archived) => ArchiveScenarioHome(w, s, archived, next);
  }

  lemma CreateScenarioHome(w: World, p: Id, title: string, r: Option<Id>, next: World)
    requires AtHome(w) && RowIds(w) && Backlog.CreateScenario(w, p, title, r) == Ok(next)
    ensures AtHome(next)
  {
    hide Strip, FoldersHome, RequirementsHome, DefectsHome, RaisedHome;
  }

  lemma UpdateScenarioHome(w: World, s: Id, r: Option<Id>, next: World)
    requires AtHome(w) && Backlog.UpdateScenario(w, s, r) == Ok(next)
    ensures AtHome(next)
  {
    hide FoldersHome, RequirementsHome, DefectsHome, RaisedHome;
  }

  lemma ArchiveScenarioHome(w: World, s: Id, archived: bool, next: World)
    requires AtHome(w) && Backlog.ArchiveScenario(w, s, archived) == Ok(next)
    ensures AtHome(next)
  {
    hide FoldersHome, RequirementsHome, DefectsHome, RaisedHome;
  }

  lemma RequirementActHome(w: World, now: Time, act: Act, next: World)
    requires AtHome(w) && RowIds(w) && Outcome(w, now, act) == Ok(next) && OnRequirements(act)
    ensures AtHome(next)
  {
    hide RequirementMoves, FoldersHome, ScenarioHome, DefectsHome, RaisedHome;
  }

  lemma DeleteRequirementHome(w: World, r: Id, next: World)
    requires AtHome(w) && Backlog.DeleteRequirement(w, r) == Ok(next)
    ensures AtHome(next)
  {
    hide LinksWithout, FoldersHome, DefectsHome, RaisedHome;
  }

  lemma FolderHome(w: World, project: Id, next: World)
    requires AtHome(w) && RowIds(w) && Backlog.CreateFolder(w, project) == Ok(next)
    ensures AtHome(next)
  {
    hide ScenarioHome, ScenariosHome, RequirementsHome, DefectsHome, RaisedHome;
  }

  lemma CreateDefectHome(w: World, project: Id, severity: Severity, release: Option<Id>, next: World)
    requires AtHome(w) && RowIds(w) && Backlog.CreateDefect(w, project, severity, release) == Ok(next)
    ensures AtHome(next)
  {
    hide FoldersHome, ScenarioHome, ScenariosHome, RequirementsHome;
  }

  lemma TransitionDefectHome(w: World, d: Id, status: DefectStatus, next: World)
    requires AtHome(w) && Backlog.TransitionDefect(w, d, status) == Ok(next)
    ensures AtHome(next)
  {
    hide DefectMoves, FoldersHome, ScenarioHome, ScenariosHome, RequirementsHome;
  }

  lemma LinkDefectHome(w: World, a: Id, d: Id, next: World)
    requires AtHome(w) && Backlog.LinkDefect(w, a, d) == Ok(next)
    ensures AtHome(next)
  {
    hide FoldersHome, ScenarioHome, ScenariosHome, RequirementsHome, DefectsHome;
  }

  lemma StepHome(w: World, now: Time, act: Act)
    requires WorldInv(w) && AtHome(w)
    ensures AtHome(Step(w, now, act))
  {
    hide Inv, RowIds, LinksOk, LiveOnceEach, AtHome, Apply,
      Backlog.CreateRequirement, Backlog.SetRequirementRelease, Backlog.TransitionRequirement,
      Backlog.CreateScenario, Backlog.UpdateScenario, Backlog.ArchiveScenario, Backlog.SetTestCaseScenario,
      Backlog.CreateFolder, Backlog.CreateTestCase, Backlog.UpdateTestCase, Backlog.TransitionRelease,
      Backlog.CreateDefect, Backlog.TransitionDefect, Backlog.LinkDefect,
      Backlog.CreateLink, Backlog.RemoveLink, Backlog.DeleteRequirement;
    if Outcome(w, now, act).Ok? {
      var next := Outcome(w, now, act).value;
      match act
      case Core(call) => DbStepHome(w, next, now, call);
      case CreateCase(p, title, d, pre, steps, auto, folder, scenario) =>
        CreateCaseHome(w, now, p, title, d, pre, steps, auto, folder, scenario, next);
      case EditCase(c, expected, edit, move) => EditCaseHome(w, now, c, expected, edit, move, next);
      case SetTestCaseScenario(c, s) => SetScenarioHome(w, c, s, next);
      case CreateFolder(p) => FolderHome(w, p, next);
      case DeleteRequirement(r) => DeleteRequirementHome(w, r, next);
      case CreateDefect(p, severity, release) => CreateDefectHome(w, p, severity, release, next);
      case TransitionDefect(d, status) => TransitionDefectHome(w, d, status, next);
      case LinkDefect(a, d) => LinkDefectHome(w, a, d, next);
      case CreateLink(p, source, target) => LinksAreAside(w, now, act, next);
      case RemoveLink(l) => LinksAreAside(w, now, act, next);
      case TransitionRelease(r, status) => LinksAreAside(w, now, act, next);
      case CreateScenario(_, _, _) => ScenarioActHome(w, now, act, next);
      case UpdateScenario(_, _) => ScenarioActHome(w, now, act, next);
      case ArchiveScenario(_, _) => ScenarioActHome(w, now, act, next);
      case _ => RequirementActHome(w, now, act, next);
    }
  }

  /** Links and release states are named by no row this is about. */
  lemma LinksAreAside(w: World, now: Time, act: Act, next: World)
    requires AtHome(w) && Outcome(w, now, act) == Ok(next)
    requires act.CreateLink? || act.RemoveLink? || act.TransitionRelease?
    ensures AtHome(next)
  {
    hide FoldersHome, ScenarioHome, ScenariosHome, RequirementsHome, DefectsHome, RaisedHome,
      EntityProject, Duplicates, ReleaseMoves, Legal;
  }

  /** In every reachable state folders, scenarios, requirements, releases and defects are named
      only from their own project, and a defect is linked to an attempt at most once. */
  lemma {:induction false} NothingCrossesProjects(projects: set<Id>, acts: seq<(Time, Act)>)
    ensures AtHome(ReachedWorld(projects, acts))
    decreases |acts|
  {
    hide WorldInv, Step;
    if acts == [] {
    } else {
      hide AtHome;
      var n := |acts| - 1;
      NothingCrossesProjects(projects, acts[..n]);
      ReachedWorldInv(projects, acts[..n]);
      StepHome(ReachedWorld(projects, acts[..n]), acts[n].0, acts[n].1);
    }
  }
}
