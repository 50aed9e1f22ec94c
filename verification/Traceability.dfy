/** Trace links over every run (backend/app/domain/traceability.py): which delete paths can
    leave a live link dangling, and how many do. */
module Traceability {
  import opened Common
  import opened Tables
  import opened Evidence
  import opened Preservation
  import opened Backlog
  import TC = TestCases
  import PL = Planning

  datatype Act =
    | Core(call: Call)
    | CreateRequirement(project: Id, requirementStatus: RequirementStatus, release: Option<Id>)
    | SetRequirementRelease(r: Id, release: Option<Id>)
    | TransitionRequirement(r: Id, requirementStatus: RequirementStatus)
    | DeleteRequirement(r: Id)
    | CreateScenario(project: Id, title: string, requirement: Option<Id>)
    | UpdateScenario(s: Id, requirement: Option<Id>)
    | ArchiveScenario(s: Id, archived: bool)
    | SetTestCaseScenario(c: Id, scenario: Option<Id>)
    | CreateFolder(project: Id)
    | CreateCase(project: Id, title: string, description: Option<string>, preconditions: Option<string>,
                 steps: seq<TC.StepInput>, automation: Automation, folder: Option<Id>, scenario: Option<Id>)
    | EditCase(c: Id, expected: nat, edit: TC.Edit, move: Option<Option<Id>>)
    | TransitionRelease(rel: Id, releaseStatus: ReleaseStatus)
    | CreateDefect(project: Id, severity: Severity, release: Option<Id>)
    | TransitionDefect(d: Id, defectStatus: DefectStatus)
    | LinkDefect(a: Id, d: Id)
    | CreateLink(project: Id, source: Entity, target: Entity)
    | RemoveLink(l: Id)

  ghost function Outcome(w: World, now: Time, act: Act): Result<World> {
    match act
    case Core(call) => Ok(w.(db := Apply(w.db, now, call)))
    case CreateRequirement(p, status, release) => Backlog.CreateRequirement(w, p, status, release)
    case SetRequirementRelease(r, release) => Backlog.SetRequirementRelease(w, r, release)
    case TransitionRequirement(r, status) => Backlog.TransitionRequirement(w, r, status)
    case DeleteRequirement(r) => Backlog.DeleteRequirement(w, r)
    case CreateScenario(p, title, r) => Backlog.CreateScenario(w, p, title, r)
    case UpdateScenario(s, r) => Backlog.UpdateScenario(w, s, r)
    case ArchiveScenario(s, archived) => Backlog.ArchiveScenario(w, s, archived)
    case SetTestCaseScenario(c, s) => Backlog.SetTestCaseScenario(w, c, s)
    case CreateFolder(p) => Backlog.CreateFolder(w, p)
    case CreateCase(p, title, d, pre, steps, auto, folder, scenario) =>
      Backlog.CreateTestCase(w, p, title, d, pre, steps, auto, folder, scenario)
    case EditCase(c, expected, edit, move) => Backlog.UpdateTestCase(w, c, expected, edit, move)
    case TransitionRelease(r, status) => Backlog.TransitionRelease(w, r, status)
    case CreateDefect(p, severity, release) => Backlog.CreateDefect(w, p, severity, release)
    case TransitionDefect(d, status) => Backlog.TransitionDefect(w, d, status)
    case LinkDefect(a, d) => Backlog.LinkDefect(w, a, d)
    case CreateLink(p, source, target) => Backlog.CreateLink(w, p, source, target)
    case RemoveLink(l) => Backlog.RemoveLink(w, l)
  }

  ghost function Step(w: World, now: Time, act: Act): World {
    match Outcome(w, now, act)
    case Ok(next) => next
    case Err(_) => w
  }

  ghost function RunActs(w: World, acts: seq<(Time, Act)>): World
    decreases |acts|
  {
    if acts == [] then w
    else
      var last := acts[|acts| - 1];
      Step(RunActs(w, acts[..|acts| - 1]), last.0, last.1)
  }

  ghost function ReachedWorld(projects: set<Id>, acts: seq<(Time, Act)>): World {
    RunActs(EmptyWorld(projects), acts)
  }

  // ------------------------------------------------------------------ what every step keeps

  predicate Live(w: World, l: Id) {
    l in w.links && !w.links[l].removed
  }

  /** Both ends are found in the link's own project. */
  predicate Resolves(w: World, link: Link) {
    EntityProject(w, link.source) == Some(link.project) && EntityProject(w, link.target) == Some(link.project)
  }

  /** A release scoping a plan that is gone. */
  predicate Orphaned(w: World, link: Link) {
    link.source.kind.ReleaseKind? && link.target.kind.PlanKind? && link.target.id !in w.db.plans
  }

  ghost predicate EndOk(w: World, e: Entity, project: Id) {
    || EntityProject(w, e) == Some(project)
    || (e.kind.PlanKind? && e.id < w.db.nextId && e.id !in w.db.plans)
  }

  ghost predicate LinkOk(w: World, l: Id)
    requires l in w.links
  {
    var link := w.links[l];
    && Legal(link.source.kind, link.target.kind) == Some(link.relation)
    && (!link.removed ==> EndOk(w, link.source, link.project) && EndOk(w, link.target, link.project))
  }

  ghost predicate LinksOk(w: World) {
    forall l :: l in w.links ==> LinkOk(w, l)
  }

  ghost predicate LiveOnceEach(w: World) {
    forall l, m :: Live(w, l) && Live(w, m) && SameEnds(w.links[l], w.links[m]) ==> l == m
  }

  ghost predicate RowIds(w: World) {
    && Below(w.requirements, w.next) && Below(w.scenarios, w.next) && Below(w.folders, w.next)
    && Below(w.defects, w.next) && Below(w.links, w.next)
  }

  ghost predicate WorldInv(w: World) {
    Inv(w.db) && RowIds(w) && LinksOk(w) && LiveOnceEach(w)
  }

  /** Plans come from the counter, keep their project, and go only by DeletePlan. */
  lemma PlansStep(db: Db, now: Time, call: Call)
    requires Inv(db)
    ensures var after := Apply(db, now, call);
      && PlansKept(db, after)
      && (forall p :: p in db.plans && p !in after.plans ==> call == Call.DeletePlan(p))
  {
    hide RepositoryOk, HistoriesOk, CyclesOk, TestsOk, LiveOnce, AttemptsOk, OneOpen, RetestsOk, Below, PlansKept;
    SamePlansKept(db);
    if Perform(db, now, call).Ok? {
      var next := Perform(db, now, call).value;
      if call.CreatePlan? {
        NewPlanKept(db, call.project, call.release, next);
      } else if call.DeletePlan? {
        LostPlanKept(db, call.plan, next);
      } else {
        PlansUntouched(db, now, call, next);
        FramedPlansKept(db, next);
      }
    }
    hide Perform;
  }

  lemma SamePlansKept(db: Db)
    ensures PlansKept(db, db)
  {}

  lemma FramedPlansKept(db: Db, next: Db)
    requires next.plans == db.plans
    ensures PlansKept(db, next)
  {}

  lemma NewPlanKept(db: Db, project: Id, release: Option<Id>, next: Db)
    requires PL.CreatePlan(db, project, release) == Ok(next)
    ensures PlansKept(db, next) && forall p :: p in db.plans ==> p in next.plans
  {
    hide PL.KnownRelease;
  }

  lemma LostPlanKept(db: Db, plan: Id, next: Db)
    requires PL.DeletePlan(db, plan) == Ok(next)
    ensures PlansKept(db, next) && forall p :: p in db.plans && p !in next.plans ==> p == plan
  {
    hide PL.HasCycle;
  }

  lemma PlansUntouched(db: Db, now: Time, call: Call, next: Db)
    requires Inv(db) && Perform(db, now, call) == Ok(next) && !call.CreatePlan? && !call.DeletePlan?
    ensures next.plans == db.plans
  {
    hide RepositoryOk, HistoriesOk, CyclesOk, TestsOk, LiveOnce, AttemptsOk, OneOpen, RetestsOk, VersionsKept, Below,
      OldContentKept, CasesKept, EvidenceKept, RetestsInherited, CyclesKept, TestsKept, AttemptsKept, OnlyFlags;
    if RepositoryCall(call) {
      RepositoryCallChanges(db, now, call, next);
    } else if PlanningCall(call) {
      PlanningCallChanges(db, now, call, next);
    } else if ExecutionCall(call) {
      ExecutionCallChanges(db, now, call, next);
    } else if call.AddCycleTests? {
      AddEachPlans(db, call.cycle, call.caseIds, next);
    }
  }

  lemma {:induction false} AddEachPlans(db: Db, cycle: Id, caseIds: seq<Id>, next: Db)
    requires cycle in db.cycles && PL.AddEach(db, cycle, caseIds) == Ok(next)
    ensures next.plans == db.plans
    decreases |caseIds|
  {
    if caseIds == [] {
    } else {
      var mid := PL.AddCycleTest(db, cycle, caseIds[0]).value;
      AddEachPlans(mid, cycle, caseIds[1..], next);
    }
  }

  ghost predicate PlansKept(before: Db, after: Db) {
    forall p :: p in after.plans && p < before.nextId ==> p in before.plans && after.plans[p] == before.plans[p]
  }

  /** An entity stays, in its project, through every step of the machine beneath; only a plan
      may go. */
  lemma EndKept(before: World, after: World, e: Entity, project: Id)
    requires Grows(before.db, after.db) && EndOk(before, e, project)
    requires after.requirements == before.requirements && after.defects == before.defects
    requires PlansKept(before.db, after.db) && Below(before.db.plans, before.db.nextId)
    ensures EndOk(after, e, project)
  {
    hide VersionsKept, OldContentKept, CasesKept, CyclesKept, TestsKept, AttemptsKept, ReleasesKept;
    match e.kind
    case VersionKind => VersionEndKept(before.db, after.db, e.id);
    case CaseKind => CaseEndKept(before.db.cases, after.db.cases, e.id);
    case CycleKind => CycleEndKept(before.db.cycles, after.db.cycles, e.id);
    case CycleTestKind => TestEndKept(before.db.tests, after.db.tests, e.id);
    case AttemptKind => AttemptEndKept(before.db.attempts, after.db.attempts, e.id);
    case ReleaseKind => ReleaseEndKept(before.db.releases, after.db.releases, e.id);
    case _ =>
  }

  lemma VersionEndKept(before: Db, after: Db, v: Id)
    requires VersionsKept(before.versions, after.versions) && CasesKept(before.cases, after.cases)
    ensures v in before.versions ==> v in after.versions && after.versions[v].caseId == before.versions[v].caseId
    ensures v in before.versions && before.versions[v].caseId in before.cases ==>
              && before.versions[v].caseId in after.cases
              && after.cases[before.versions[v].caseId].project == before.cases[before.versions[v].caseId].project
  {
    hide ContentOf;
  }

  lemma CaseEndKept(before: map<Id, Case>, after: map<Id, Case>, c: Id)
    requires CasesKept(before, after)
    ensures c in before ==> c in after && after[c].project == before[c].project
  {}

  lemma CycleEndKept(before: map<Id, Cycle>, after: map<Id, Cycle>, c: Id)
    requires CyclesKept(before, after)
    ensures c in before ==> c in after && after[c].project == before[c].project
  {}

  lemma TestEndKept(before: map<Id, CycleTest>, after: map<Id, CycleTest>, t: Id)
    requires TestsKept(before, after)
    ensures t in before ==> t in after && after[t].project == before[t].project
  {}

  lemma AttemptEndKept(before: map<Id, Attempt>, after: map<Id, Attempt>, a: Id)
    requires AttemptsKept(before, after)
    ensures a in before ==> a in after && after[a].project == before[a].project
  {}

  lemma ReleaseEndKept(before: map<Id, Id>, after: map<Id, Id>, r: Id)
    requires ReleasesKept(before, after)
    ensures r in before ==> r in after && after[r] == before[r]
  {}

  /** A step of the machine beneath, with nothing that links depend on changed beside it. */
  lemma DbStep(before: World, after: World, now: Time, call: Call)
    requires WorldInv(before) && after.db == Apply(before.db, now, call) && RowIds(after)
    requires after.requirements == before.requirements && after.defects == before.defects && after.links == before.links
    ensures WorldInv(after)
  {
    hide Grows, Apply, LinksOk, RepositoryOk, HistoriesOk, CyclesOk, TestsOk, LiveOnce, AttemptsOk, OneOpen, RetestsOk;
    ApplyKeeps(before.db, now, call);
    PlansStep(before.db, now, call);
    LinksCarried(before, after);
    assert forall l :: Live(after, l) <==> Live(before, l);
  }

  lemma LinksCarried(before: World, after: World)
    requires LinksOk(before) && Grows(before.db, after.db) && Below(before.db.plans, before.db.nextId)
    requires after.requirements == before.requirements && after.defects == before.defects && after.links == before.links
    requires PlansKept(before.db, after.db)
    ensures LinksOk(after)
  {
    hide Grows, EndOk, Legal, PlansKept;
    forall l | l in after.links ensures LinkOk(after, l) {
      assert LinkOk(before, l);
      var link := before.links[l];
      if !link.removed {
        EndKept(before, after, link.source, link.project);
        EndKept(before, after, link.target, link.project);
      }
    }
  }

  /** The rows an act may add or change without touching any link. */
  ghost predicate Widened(before: World, after: World) {
    && after.db == before.db && after.links == before.links && before.next <= after.next
    && (forall r :: r in before.requirements ==>
          r in after.requirements && after.requirements[r].project == before.requirements[r].project)
    && (forall d :: d in before.defects ==>
          d in after.defects && after.defects[d].project == before.defects[d].project)
    && RowIds(after)
  }

  lemma WidenedKeeps(before: World, after: World)
    requires WorldInv(before) && Widened(before, after)
    ensures WorldInv(after)
  {
    hide Inv, EndOk, Legal, RowIds;
    forall l | l in after.links ensures LinkOk(after, l) {
      assert LinkOk(before, l);
      var link := before.links[l];
      if !link.removed {
        EndWidened(before, after, link.source, link.project);
        EndWidened(before, after, link.target, link.project);
      }
    }
  }

  lemma EndWidened(before: World, after: World, e: Entity, project: Id)
    requires Widened(before, after) && EndOk(before, e, project)
    ensures EndOk(after, e, project)
  {
    hide RowIds;
  }

  lemma CreateLinkStep(w: World, project: Id, source: Entity, target: Entity, next: World)
    requires WorldInv(w) && Backlog.CreateLink(w, project, source, target) == Ok(next)
    ensures WorldInv(next)
  {
    CreatedLink(w, project, source, target, next);
    hide Inv, LinkOk, Legal, Duplicates, EntityProject, Backlog.CreateLink, LiveOnceEach;
    OldLinksOk(w, next);
    CreatedOnce(w, source, target, next);
  }

  lemma CreatedLink(w: World, project: Id, source: Entity, target: Entity, next: World)
    requires RowIds(w) && Backlog.CreateLink(w, project, source, target) == Ok(next)
    ensures w.next !in w.links && w.next in next.links && next == w.(links := next.links, next := w.next + 1)
    ensures next.links == w.links[w.next := next.links[w.next]]
    ensures LinkOk(next, w.next) && RowIds(next)
    ensures next.links[w.next].source == source && next.links[w.next].target == target
    ensures forall l :: Live(w, l) && LinkOk(w, l) ==> !(w.links[l].source == source && w.links[l].target == target)
  {}

  lemma OldLinksOk(w: World, next: World)
    requires LinksOk(w) && w.next in next.links && LinkOk(next, w.next)
    requires next == w.(links := next.links, next := w.next + 1) && next.links == w.links[w.next := next.links[w.next]]
    ensures LinksOk(next)
  {
    hide Legal, EndOk;
    forall l | l in next.links ensures LinkOk(next, l) {
      if l != w.next {
        assert LinkOk(w, l);
        SameEnd(w, next, w.links[l].source, w.links[l].project);
        SameEnd(w, next, w.links[l].target, w.links[l].project);
      }
    }
  }

  lemma SameEnd(before: World, after: World, e: Entity, project: Id)
    requires after.db == before.db && after.requirements == before.requirements && after.defects == before.defects
    ensures EndOk(before, e, project) <==> EndOk(after, e, project)
  {
    assert EntityProject(before, e) == EntityProject(after, e);
    hide EntityProject;
  }

  lemma CreatedOnce(w: World, source: Entity, target: Entity, next: World)
    requires LiveOnceEach(w) && LinksOk(w)
    requires w.next in next.links && next.links == w.links[w.next := next.links[w.next]]
    requires next.links[w.next].source == source && next.links[w.next].target == target && w.next !in w.links
    requires forall l :: Live(w, l) && LinkOk(w, l) ==> !(w.links[l].source == source && w.links[l].target == target)
    ensures LiveOnceEach(next)
  {
    hide LinkOk;
    forall l, m | Live(next, l) && Live(next, m) && SameEnds(next.links[l], next.links[m]) ensures l == m {
      assert l != w.next ==> Live(w, l);
      assert m != w.next ==> Live(w, m);
    }
  }

  lemma RemoveLinkStep(w: World, l: Id, next: World)
    requires WorldInv(w) && Backlog.RemoveLink(w, l) == Ok(next)
    ensures WorldInv(next)
  {
    hide Inv;
    forall m | m in next.links ensures LinkOk(next, m) {
      assert LinkOk(w, m);
    }
    forall m, n | Live(next, m) && Live(next, n) && SameEnds(next.links[m], next.links[n]) ensures m == n {
      assert Live(w, m) && Live(w, n);
    }
  }

  lemma DeleteRequirementStep(w: World, r: Id, next: World)
    requires WorldInv(w) && Backlog.DeleteRequirement(w, r) == Ok(next)
    ensures WorldInv(next)
  {
    hide Inv;
    forall m | m in next.links ensures LinkOk(next, m) {
      assert LinkOk(w, m);
    }
    forall m, n | Live(next, m) && Live(next, n) && SameEnds(next.links[m], next.links[n]) ensures m == n {
      assert Live(w, m) && Live(w, n);
    }
  }

  /** The call of the machine beneath that an act amounts to, if it succeeds in one. */
  ghost function CoreOf(w: World, now: Time, act: Act): Option<Call> {
    match act
    case Core(call) => Some(call)
    case CreateCase(p, title, d, pre, steps, auto, _, _) =>
      if Outcome(w, now, act).Ok? then Some(Call.CreateTestCase(p, title, d, pre, steps, auto)) else None
    case EditCase(c, expected, edit, _) =>
      if Outcome(w, now, act).Ok? then Some(Call.UpdateTestCase(c, expected, edit)) else None
    case _ => None
  }

  lemma CaseActs(w: World, now: Time, act: Act)
    requires (act.CreateCase? || act.EditCase?) && Outcome(w, now, act).Ok?
    ensures CoreOf(w, now, act).Some?
    ensures var next := Outcome(w, now, act).value;
      && next.db == Apply(w.db, now, CoreOf(w, now, act).value)
      && next == w.(db := next.db, folderOf := next.folderOf, scenarioOf := next.scenarioOf)
  {
    hide Apply, Backlog.CreateTestCase, Backlog.UpdateTestCase;
    match act
    case CreateCase(p, title, d, pre, steps, auto, folder, scenario) =>
      CreateCaseApplies(w, now, p, title, d, pre, steps, auto, folder, scenario);
    case EditCase(c, expected, edit, move) => EditCaseApplies(w, now, c, expected, edit, move);
  }

  lemma CreateCaseApplies(
    w: World, now: Time, p: Id, title: string, d: Option<string>, pre: Option<string>, steps: seq<TC.StepInput>,
    auto: Automation, folder: Option<Id>, scenario: Option<Id>
  )
    requires Backlog.CreateTestCase(w, p, title, d, pre, steps, auto, folder, scenario).Ok?
    ensures var next := Backlog.CreateTestCase(w, p, title, d, pre, steps, auto, folder, scenario).value;
      && next.db == Apply(w.db, now, Call.CreateTestCase(p, title, d, pre, steps, auto))
      && next == w.(db := next.db, folderOf := next.folderOf, scenarioOf := next.scenarioOf)
  {
    hide TC.CreateTestCase, KnownFolder, KnownScenario, Filed;
  }

  lemma EditCaseApplies(w: World, now: Time, c: Id, expected: nat, edit: TC.Edit, move: Option<Option<Id>>)
    requires Backlog.UpdateTestCase(w, c, expected, edit, move).Ok?
    ensures var next := Backlog.UpdateTestCase(w, c, expected, edit, move).value;
      && next.db == Apply(w.db, now, Call.UpdateTestCase(c, expected, edit))
      && next == w.(db := next.db, folderOf := next.folderOf, scenarioOf := next.scenarioOf)
  {
    hide TC.UpdateTestCase, KnownFolder, Filed;
  }

  /** Every other act leaves the tables of the machine beneath alone. */
  lemma AsideStep(w: World, now: Time, act: Act)
    requires RowIds(w) && CoreOf(w, now, act).None?
    ensures Step(w, now, act).db == w.db
    ensures EndsKept(w, Step(w, now, act))
  {
    hide RowIds, EndsKept, Backlog.CreateTestCase, Backlog.UpdateTestCase,
      Backlog.CreateLink, Backlog.RemoveLink, Backlog.DeleteRequirement;
    SameEndsKept(w);
    if Outcome(w, now, act).Ok? {
      var next := Outcome(w, now, act).value;
      if OnLinks(act) {
        LinkActEnds(w, now, act, next);
      } else {
        hide Outcome, CoreOf;
        OtherEnds(w, now, act, next);
      }
    }
  }

  lemma LinkActEnds(w: World, now: Time, act: Act, next: World)
    requires RowIds(w) && Outcome(w, now, act) == Ok(next) && OnLinks(act)
    ensures next.db == w.db && EndsKept(w, next)
  {
    hide RowIds, EndsKept, Backlog.CreateLink, Backlog.RemoveLink, Backlog.DeleteRequirement;
    match act
    case CreateLink(p, source, target) => CreateLinkEnds(w, p, source, target, next);
    case RemoveLink(l) => RemoveLinkEnds(w, l, next);
    case DeleteRequirement(r) => DeleteRequirementEnds(w, r, next);
  }

  /** A link that is in both states has the same ends and project in both. */
  ghost predicate EndsKept(before: World, after: World) {
    forall l :: l in before.links && l in after.links ==>
      SameEnds(before.links[l], after.links[l]) && after.links[l].project == before.links[l].project
  }

  lemma SameEndsKept(w: World)
    ensures EndsKept(w, w)
  {}

  lemma CreateLinkEnds(w: World, project: Id, source: Entity, target: Entity, next: World)
    requires RowIds(w) && Backlog.CreateLink(w, project, source, target) == Ok(next)
    ensures next.db == w.db && EndsKept(w, next)
  {
    hide EntityProject, Legal, Duplicates;
  }

  lemma RemoveLinkEnds(w: World, l: Id, next: World)
    requires Backlog.RemoveLink(w, l) == Ok(next)
    ensures next.db == w.db && EndsKept(w, next)
  {}

  lemma DeleteRequirementEnds(w: World, r: Id, next: World)
    requires Backlog.DeleteRequirement(w, r) == Ok(next)
    ensures next.db == w.db && EndsKept(w, next)
  {
    hide Freed, Mentions;
  }

  predicate OnLinks(act: Act) {
    act.CreateLink? || act.RemoveLink? || act.DeleteRequirement?
  }

  predicate OnRequirements(act: Act) {
    act.CreateRequirement? || act.SetRequirementRelease? || act.TransitionRequirement?
  }

  predicate OnDefects(act: Act) {
    act.CreateDefect? || act.TransitionDefect? || act.LinkDefect?
  }

  predicate OnFiling(act: Act) {
    || act.CreateScenario? || act.UpdateScenario? || act.ArchiveScenario? || act.SetTestCaseScenario?
    || act.CreateFolder? || act.TransitionRelease?
  }

  lemma OtherEnds(w: World, now: Time, act: Act, next: World)
    requires Outcome(w, now, act) == Ok(next) && CoreOf(w, now, act).None? && !OnLinks(act)
    ensures next.db == w.db && EndsKept(w, next)
  {
    hide EndsKept, Outcome, RequirementsKept, DefectsKept, FilingKept;
    OtherIsAside(act, w, now);
    if OnRequirements(act) {
      RequirementsAside(w, now, act, next);
    } else if OnDefects(act) {
      DefectsAside(w, now, act, next);
    } else {
      FilingAside(w, now, act, next);
    }
    SameLinks(w, next);
  }

  lemma OtherIsAside(act: Act, w: World, now: Time)
    requires Outcome(w, now, act).Ok? && CoreOf(w, now, act).None? && !OnLinks(act)
    ensures OnRequirements(act) || OnDefects(act) || OnFiling(act)
  {
    hide Outcome;
  }

  lemma SameLinks(before: World, after: World)
    ensures after.links == before.links ==> EndsKept(before, after)
  {}

  /** Requirements keep their project; a new one takes the next id. */
  ghost predicate RequirementsKept(w: World, next: World) {
    && (forall r :: r in w.requirements && r != w.next ==>
          r in next.requirements && next.requirements[r].project == w.requirements[r].project)
    && (forall r :: r in next.requirements ==> r in w.requirements || (r == w.next < next.next))
  }

  lemma RequirementsAside(w: World, now: Time, act: Act, next: World)
    requires OnRequirements(act) && Outcome(w, now, act) == Ok(next)
    ensures next == w.(requirements := next.requirements, next := next.next) && w.next <= next.next
    ensures RequirementsKept(w, next)
  {
    hide RequirementMoves, PL.KnownRelease, RequirementsKept;
    match act
    case CreateRequirement(p, status, release) => RequirementCreated(w, p, status, release, next);
    case _ => RequirementChanged(w, now, act, next);
  }

  lemma RequirementCreated(w: World, p: Id, status: RequirementStatus, release: Option<Id>, next: World)
    requires Backlog.CreateRequirement(w, p, status, release) == Ok(next)
    ensures RequirementsKept(w, next)
  {
    hide PL.KnownRelease;
  }

  lemma RequirementChanged(w: World, now: Time, act: Act, next: World)
    requires (act.SetRequirementRelease? || act.TransitionRequirement?) && Outcome(w, now, act) == Ok(next)
    ensures RequirementsKept(w, next)
  {
    hide RequirementMoves, PL.KnownRelease;
  }

  lemma DefectsAside(w: World, now: Time, act: Act, next: World)
    requires OnDefects(act) && Outcome(w, now, act) == Ok(next)
    ensures next == w.(defects := next.defects, raised := next.raised, next := next.next) && w.next <= next.next
    ensures DefectsKept(w, next)
  {
    hide DefectsKept, Backlog.CreateDefect, Backlog.TransitionDefect, Backlog.LinkDefect;
    match act
    case CreateDefect(p, severity, release) => CreateDefectAside(w, p, severity, release, next);
    case TransitionDefect(d, status) => TransitionDefectAside(w, d, status, next);
    case LinkDefect(a, d) => LinkDefectAside(w, a, d, next);
  }

  /** Defects keep their project; a new one takes the next id. */
  ghost predicate DefectsKept(w: World, next: World) {
    && (forall d :: d in w.defects && d != w.next ==>
          d in next.defects && next.defects[d].project == w.defects[d].project)
    && (forall d :: d in next.defects ==> d in w.defects || (d == w.next < next.next))
  }

  lemma CreateDefectAside(w: World, p: Id, severity: Severity, release: Option<Id>, next: World)
    requires Backlog.CreateDefect(w, p, severity, release) == Ok(next)
    ensures next == w.(defects := next.defects, next := next.next) && w.next <= next.next && DefectsKept(w, next)
  {
    hide PL.KnownRelease;
  }

  lemma TransitionDefectAside(w: World, d: Id, status: DefectStatus, next: World)
    requires Backlog.TransitionDefect(w, d, status) == Ok(next)
    ensures next == w.(defects := next.defects) && DefectsKept(w, next)
  {
    hide DefectMoves;
  }

  lemma LinkDefectAside(w: World, a: Id, d: Id, next: World)
    requires Backlog.LinkDefect(w, a, d) == Ok(next)
    ensures next == w.(raised := next.raised) && DefectsKept(w, next)
  {
    assert next == w.(raised := next.raised) by {
      hide DefectsKept;
    }
    hide Backlog.LinkDefect;
  }

  ghost predicate FilingKept(w: World, next: World) {
    && (forall s :: s in next.scenarios ==> s in w.scenarios || (s == w.next < next.next))
    && (forall f :: f in next.folders ==> f in w.folders || (f == w.next < next.next))
  }

  lemma FilingAside(w: World, now: Time, act: Act, next: World)
    requires OnFiling(act) && Outcome(w, now, act) == Ok(next)
    ensures w.next <= next.next && FilingKept(w, next)
    ensures next == w.(scenarios := next.scenarios, scenarioOf := next.scenarioOf, folders := next.folders,
                       releaseStates := next.releaseStates, next := next.next)
  {
    hide FilingKept, Backlog.CreateScenario, Backlog.UpdateScenario, Backlog.ArchiveScenario,
      Backlog.SetTestCaseScenario, Backlog.CreateFolder, Backlog.TransitionRelease;
    match act
    case CreateScenario(p, title, r) => CreateScenarioAside(w, p, title, r, next);
    case UpdateScenario(s, r) => UpdateScenarioAside(w, s, r, next);
    case ArchiveScenario(s, archived) => ArchiveScenarioAside(w, s, archived, next);
    case SetTestCaseScenario(c, s) => SetScenarioAside(w, c, s, next);
    case CreateFolder(p) => CreateFolderAside(w, p, next);
    case TransitionRelease(r, status) => TransitionReleaseAside(w, r, status, next);
  }

  lemma CreateScenarioAside(w: World, p: Id, title: string, r: Option<Id>, next: World)
    requires Backlog.CreateScenario(w, p, title, r) == Ok(next)
    ensures next == w.(scenarios := next.scenarios, next := next.next) && w.next <= next.next && FilingKept(w, next)
  {
    hide Strip, KnownRequirement;
  }

  lemma UpdateScenarioAside(w: World, s: Id, r: Option<Id>, next: World)
    requires Backlog.UpdateScenario(w, s, r) == Ok(next)
    ensures next == w.(scenarios := next.scenarios) && w.next <= next.next && FilingKept(w, next)
  {
    hide KnownRequirement;
  }

  lemma ArchiveScenarioAside(w: World, s: Id, archived: bool, next: World)
    requires Backlog.ArchiveScenario(w, s, archived) == Ok(next)
    ensures next == w.(scenarios := next.scenarios) && w.next <= next.next && FilingKept(w, next)
  {}

  lemma SetScenarioAside(w: World, c: Id, s: Option<Id>, next: World)
    requires Backlog.SetTestCaseScenario(w, c, s) == Ok(next)
    ensures next == w.(scenarioOf := next.scenarioOf) && w.next <= next.next && FilingKept(w, next)
  {}

  lemma CreateFolderAside(w: World, p: Id, next: World)
    requires Backlog.CreateFolder(w, p) == Ok(next)
    ensures next == w.(folders := next.folders, next := next.next) && w.next <= next.next && FilingKept(w, next)
  {}

  lemma TransitionReleaseAside(w: World, r: Id, status: ReleaseStatus, next: World)
    requires Backlog.TransitionRelease(w, r, status) == Ok(next)
    ensures next == w.(releaseStates := next.releaseStates) && w.next <= next.next && FilingKept(w, next)
  {
    hide ReleaseMoves, ReleaseState;
  }

  /** An act beside the machine and beside the links only widens the tables. */
  lemma AsideWidens(w: World, now: Time, act: Act, next: World)
    requires RowIds(w) && Outcome(w, now, act) == Ok(next) && !OnLinks(act)
    requires !act.Core? && !act.CreateCase? && !act.EditCase?
    ensures Widened(w, next)
  {
    hide Outcome, RowIds, Widened, RequirementsKept, DefectsKept, FilingKept;
    if OnRequirements(act) {
      RequirementsAside(w, now, act, next);
      RequirementsWiden(w, next);
    } else if OnDefects(act) {
      DefectsAside(w, now, act, next);
      DefectsWiden(w, next);
    } else {
      FilingAside(w, now, act, next);
      FilingWidens(w, next);
    }
  }

  lemma RequirementsWiden(w: World, next: World)
    requires RowIds(w) && RequirementsKept(w, next) && w.next <= next.next
    requires next == w.(requirements := next.requirements, next := next.next)
    ensures Widened(w, next)
  {}

  lemma DefectsWiden(w: World, next: World)
    requires RowIds(w) && DefectsKept(w, next) && w.next <= next.next
    requires next == w.(defects := next.defects, raised := next.raised, next := next.next)
    ensures Widened(w, next)
  {}

  lemma FilingWidens(w: World, next: World)
    requires RowIds(w) && FilingKept(w, next) && w.next <= next.next
    requires next == w.(scenarios := next.scenarios, scenarioOf := next.scenarioOf, folders := next.folders,
                        releaseStates := next.releaseStates, next := next.next)
    ensures Widened(w, next)
  {}

  lemma StepKeeps(w: World, now: Time, act: Act)
    requires WorldInv(w)
    ensures WorldInv(Step(w, now, act))
  {
    hide Inv, LinksOk, LiveOnceEach, Apply, RowIds, Widened,
      Backlog.CreateRequirement, Backlog.SetRequirementRelease, Backlog.TransitionRequirement,
      Backlog.CreateScenario, Backlog.UpdateScenario, Backlog.ArchiveScenario, Backlog.SetTestCaseScenario,
      Backlog.CreateFolder, Backlog.TransitionRelease, Backlog.CreateTestCase, Backlog.UpdateTestCase,
      Backlog.CreateDefect, Backlog.TransitionDefect, Backlog.LinkDefect,
      Backlog.CreateLink, Backlog.RemoveLink, Backlog.DeleteRequirement;
    if Outcome(w, now, act).Ok? {
      var next := Outcome(w, now, act).value;
      match act
      case Core(call) => SameRowIds(w, next); DbStep(w, next, now, call);
      case CreateCase(_, _, _, _, _, _, _, _) => CaseStep(w, now, act, next);
      case EditCase(_, _, _, _) => CaseStep(w, now, act, next);
      case CreateLink(p, source, target) => CreateLinkStep(w, p, source, target, next);
      case RemoveLink(l) => RemoveLinkStep(w, l, next);
      case DeleteRequirement(r) => DeleteRequirementStep(w, r, next);
      case _ => AsideWidens(w, now, act, next); WidenedKeeps(w, next);
    }
  }

  lemma CaseStep(w: World, now: Time, act: Act, next: World)
    requires WorldInv(w) && (act.CreateCase? || act.EditCase?) && Outcome(w, now, act) == Ok(next)
    ensures WorldInv(next)
  {
    hide Inv, LinksOk, LiveOnceEach, Apply, RowIds, Outcome;
    CaseActs(w, now, act);
    SameRowIds(w, next);
    DbStep(w, next, now, CoreOf(w, now, act).value);
  }

  lemma SameRowIds(before: World, after: World)
    requires RowIds(before) && after.requirements == before.requirements && after.scenarios == before.scenarios
    requires after.folders == before.folders && after.defects == before.defects && after.links == before.links
    requires after.next == before.next
    ensures RowIds(after)
  {}

  lemma {:induction false} ReachedWorldInv(projects: set<Id>, acts: seq<(Time, Act)>)
    ensures WorldInv(ReachedWorld(projects, acts))
    decreases |acts|
  {
    if acts == [] {
    } else {
      hide WorldInv, Step;
      ReachedWorldInv(projects, acts[..|acts| - 1]);
      var last := acts[|acts| - 1];
      StepKeeps(ReachedWorld(projects, acts[..|acts| - 1]), last.0, last.1);
    }
  }

  // ------------------------------------------------------------------ main results

  /** In every reachable state a live link fails to resolve exactly when it is a release
      scoping a deleted plan. */
  lemma OnlyPlanDeletionBreaksLinks(projects: set<Id>, acts: seq<(Time, Act)>, l: Id)
    requires Live(ReachedWorld(projects, acts), l)
    ensures var w := ReachedWorld(projects, acts);
      !Resolves(w, w.links[l]) <==> Orphaned(w, w.links[l])
  {
    hide Inv, ReachedWorld, Resolves, Orphaned;
    ReachedWorldInv(projects, acts);
    BrokenIsOrphaned(ReachedWorld(projects, acts), l);
  }

  /** A step leaves a live, resolving link dangling exactly when it is the deletion, gone
      through, of the plan the link points at. */
  lemma BreakingStep(projects: set<Id>, acts: seq<(Time, Act)>, now: Time, act: Act, l: Id)
    requires Live(ReachedWorld(projects, acts), l)
    requires Resolves(ReachedWorld(projects, acts), ReachedWorld(projects, acts).links[l])
    requires Live(Step(ReachedWorld(projects, acts), now, act), l)
    ensures var w := ReachedWorld(projects, acts);
      && var after, target := Step(w, now, act), w.links[l].target;
      && (!Resolves(after, after.links[l]) <==>
            target.kind.PlanKind? && act == Core(Call.DeletePlan(target.id)) && PL.DeletePlan(w.db, target.id).Ok?)
  {
    hide Step, WorldInv, Resolves;
    ReachedWorldInv(projects, acts);
    hide ReachedWorld;
    BrokenExactly(ReachedWorld(projects, acts), now, act, l);
  }

  lemma BrokenExactly(w: World, now: Time, act: Act, l: Id)
    requires WorldInv(w) && Live(w, l) && Resolves(w, w.links[l]) && Live(Step(w, now, act), l)
    ensures var after, target := Step(w, now, act), w.links[l].target;
      !Resolves(after, after.links[l]) <==>
        target.kind.PlanKind? && act == Core(Call.DeletePlan(target.id)) && PL.DeletePlan(w.db, target.id).Ok?
  {
    hide Inv, Step, RowIds, LiveOnceEach, Resolves, Orphaned, LinksOk, Outcome, PL.HasCycle;
    var after := Step(w, now, act);
    StepKeeps(w, now, act);
    StepEnds(w, now, act);
    BrokenIsOrphaned(w, l);
    BrokenIsOrphaned(after, l);
    OrphanedAfter(w, after, l);
    if act.Core? && act.call.DeletePlan? {
      PlanGone(w, now, act.call.plan);
    } else {
      PlansStay(w, now, act);
    }
  }

  /** A link that was no orphan becomes one just when its target is a plan that went. */
  lemma OrphanedAfter(w: World, after: World, l: Id)
    requires Live(w, l) && Live(after, l) && EndsKept(w, after) && LinksOk(w)
    requires Resolves(w, w.links[l])
    ensures Orphaned(after, after.links[l]) <==>
              && w.links[l].target.kind.PlanKind?
              && w.links[l].target.id in w.db.plans && w.links[l].target.id !in after.db.plans
  {
    assert LinkOk(w, l);
    hide LinksOk, EndOk;
  }

  lemma StepEnds(w: World, now: Time, act: Act)
    requires RowIds(w)
    ensures EndsKept(w, Step(w, now, act))
  {
    hide RowIds, EndsKept, Outcome;
    SameEndsKept(w);
    SameLinks(w, Step(w, now, act));
    if CoreOf(w, now, act).None? {
      AsideStep(w, now, act);
    } else if Outcome(w, now, act).Ok? {
      if act.Core? { CoreLinks(w, now, act.call); } else { CaseActs(w, now, act); }
    }
  }

  lemma CoreLinks(w: World, now: Time, call: Call)
    ensures Step(w, now, Core(call)) == w.(db := Apply(w.db, now, call))
  {
    hide Apply;
  }

  lemma PlanGone(w: World, now: Time, p: Id)
    ensures Step(w, now, Core(Call.DeletePlan(p))).db.plans ==
              if PL.DeletePlan(w.db, p).Ok? then w.db.plans - {p} else w.db.plans
  {
    hide PL.HasCycle;
  }

  /** Any other act keeps every plan there is, with its project. */
  lemma PlansStay(w: World, now: Time, act: Act)
    requires WorldInv(w) && !(act.Core? && act.call.DeletePlan?)
    ensures forall p :: p in w.db.plans ==> p in Step(w, now, act).db.plans
  {
    hide Inv, LinksOk, LiveOnceEach, Outcome, RowIds;
    if CoreOf(w, now, act).None? {
      AsideStep(w, now, act);
    } else if Outcome(w, now, act).Ok? {
      if act.Core? {
        CoreLinks(w, now, act.call);
        PlansStep(w.db, now, act.call);
      } else {
        CaseActs(w, now, act);
        PlansStep(w.db, now, CoreOf(w, now, act).value);
      }
    }
    hide Apply;
  }

  lemma BrokenIsOrphaned(w: World, l: Id)
    requires LinksOk(w) && Live(w, l)
    ensures !Resolves(w, w.links[l]) <==> Orphaned(w, w.links[l])
  {}

  /** One live link at most for a pair of ends, and every link is one of the nine legal
      relationships, named by the types of its ends. */
  lemma LiveLinksAreUnique(projects: set<Id>, acts: seq<(Time, Act)>)
    ensures var w := ReachedWorld(projects, acts);
      && (forall l, m :: Live(w, l) && Live(w, m) && SameEnds(w.links[l], w.links[m]) ==> l == m)
      && (forall l :: l in w.links ==>
            Legal(w.links[l].source.kind, w.links[l].target.kind) == Some(w.links[l].relation))
  {
    var w := ReachedWorld(projects, acts);
    hide Inv, ReachedWorld, EndOk;
    ReachedWorldInv(projects, acts);
    forall l | l in w.links ensures LinkOk(w, l) {}
  }

  /** After a requirement is deleted nothing refers to it, and every link that did not is
      as it was. */
  lemma DeletedRequirementLeavesNoTrace(w: World, r: Id)
    requires Backlog.DeleteRequirement(w, r).Ok?
    ensures var next := Backlog.DeleteRequirement(w, r).value;
      && r !in next.requirements
      && (forall l :: l in next.links ==>
            !Mentions(next.links[l], Entity(RequirementKind, r)) && l in w.links && next.links[l] == w.links[l])
      && (forall l :: l in w.links && !Mentions(w.links[l], Entity(RequirementKind, r)) ==> l in next.links)
      && (forall s :: s in next.scenarios ==> next.scenarios[s].requirement != Some(r))
      && (forall l :: Live(next, l) && Resolves(w, w.links[l]) ==> Resolves(next, next.links[l]))
  {}

  // ------------------------------------------------------------------ M-13

  ghost function LiveLinks(w: World, project: Id): set<Id> {
    set l | l in w.links && w.links[l].project == project && !w.links[l].removed
  }

  ghost function ResolvableLinks(w: World, project: Id): set<Id> {
    set l | l in LiveLinks(w, project) && Resolves(w, w.links[l])
  }

  ghost function OrphanedLinks(w: World, project: Id): set<Id> {
    set l | l in LiveLinks(w, project) && Orphaned(w, w.links[l])
  }

  /** What M-13 falls short by is the number of release links whose plan was deleted. */
  lemma ShortfallIsOrphans(projects: set<Id>, acts: seq<(Time, Act)>, project: Id)
    ensures var w := ReachedWorld(projects, acts);
      |LiveLinks(w, project)| - |ResolvableLinks(w, project)| == |OrphanedLinks(w, project)|
  {
    var w := ReachedWorld(projects, acts);
    hide ReachedWorld, EntityProject, Orphaned;
    forall l | l in LiveLinks(w, project) ensures Resolves(w, w.links[l]) <==> !Orphaned(w, w.links[l]) {
      OnlyPlanDeletionBreaksLinks(projects, acts, l);
    }
    hide Resolves;
    assert LiveLinks(w, project) - ResolvableLinks(w, project) == OrphanedLinks(w, project);
  }

  lemma OneMore(projects: set<Id>, acts: seq<(Time, Act)>, now: Time, act: Act)
    ensures ReachedWorld(projects, acts + [(now, act)]) == Step(ReachedWorld(projects, acts), now, act)
  {}

  ghost function Linked(project: Id): seq<(Time, Act)> {
    [(0, Core(Call.CreateRelease(project))), (0, Core(Call.CreatePlan(project, None)))]
    + [(0, CreateLink(project, Entity(ReleaseKind, 0), Entity(PlanKind, 1)))]
  }

  lemma LinkedWorld(project: Id)
    ensures var w := ReachedWorld({project}, Linked(project));
      && w.links == map[0 := Link(project, Entity(ReleaseKind, 0), Entity(PlanKind, 1), Scopes, false)]
      && w.db.cycles == map[] && w.db.plans.Keys == {1}
  {
    hide ReachedWorld;
    var first: seq<(Time, Act)> := [(0, Core(Call.CreateRelease(project)))];
    var second := first + [(0, Core(Call.CreatePlan(project, None)))];
    EmptyRun({project});
    OneMore({project}, [], 0, first[0].1);
    OneMore({project}, first, 0, second[1].1);
    OneMore({project}, second, 0, Linked(project)[2].1);
    assert second + [(0, Linked(project)[2].1)] == Linked(project) && first + [(0, second[1].1)] == second;
    assert [] + [(0, first[0].1)] == first;
    PlannedRelease(project);
    hide Step;
  }

  lemma PlannedRelease(project: Id)
    ensures var one := Step(EmptyWorld({project}), 0, Core(Call.CreateRelease(project)));
      && var two := Step(one, 0, Core(Call.CreatePlan(project, None)));
      && var three := Step(two, 0, CreateLink(project, Entity(ReleaseKind, 0), Entity(PlanKind, 1)));
      && three.links == map[0 := Link(project, Entity(ReleaseKind, 0), Entity(PlanKind, 1), Scopes, false)]
      && three.db.cycles == map[] && three.db.plans.Keys == {1}
  {}

  lemma EmptyRun(projects: set<Id>)
    ensures ReachedWorld(projects, []) == EmptyWorld(projects)
  {}

  /** A plan can be deleted under a live link, so the shortfall is not always zero. */
  lemma OrphanExample(project: Id)
    ensures OrphanedLinks(ReachedWorld({project}, Linked(project) + [(0, Core(Call.DeletePlan(1)))]), project) == {0}
  {
    hide ReachedWorld, RunActs;
    LinkedWorld(project);
    OneMore({project}, Linked(project), 0, Core(Call.DeletePlan(1)));
    var w := ReachedWorld({project}, Linked(project));
    assert !PL.HasCycle(w.db, 1);
  }
}
