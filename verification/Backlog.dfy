/** Requirements, scenarios, folders, defects and trace links beside the test-evidence tables
    (backend/app/domain/backlog.py, scenarios.py and traceability.py). */
module Backlog {
  import opened Common
  import opened Tables
  import TC = TestCases
  import PL = Planning

  datatype RequirementStatus = Draft | Active | Fulfilled | Archived

  datatype Requirement = Requirement(project: Id, status: RequirementStatus, release: Option<Id>)

  datatype Scenario = Scenario(project: Id, requirement: Option<Id>, archived: bool)

  datatype Severity = Critical | High | Major | Minor | Trivial

  datatype DefectStatus = New | Open | InProgress | Resolved | Closed | Rejected

  datatype Defect = Defect(project: Id, severity: Severity, status: DefectStatus, release: Option<Id>)

  datatype ReleaseStatus = Planned | Active | Released | Cancelled | Archived

  /** What a link end names: a type name and an id. */
  datatype Kind =
    | RequirementKind | ReleaseKind | PlanKind | CycleKind | CaseKind | VersionKind | CycleTestKind
    | AttemptKind | DefectKind | Unknown(name: string)

  datatype Entity = Entity(kind: Kind, id: Id)

  datatype Relationship = Covers | Targets | Scopes | PlannedAs | ExecutedBy | Raised | Regresses | Affects

  datatype Link = Link(project: Id, source: Entity, target: Entity, relation: Relationship, removed: bool)

  /** `scenarioOf` and `folderOf` are the columns of test_case that name its scenario and its
      folder, `folders` the project of each folder, `raised` the attempt_defect_link rows,
      `releaseStates` the status of each release that has left `planned`, and `next` the supply
      of ids for the tables of this module. */
  datatype World = World(
    db: Db,
    requirements: map<Id, Requirement>,
    scenarios: map<Id, Scenario>,
    scenarioOf: map<Id, Id>,
    folders: map<Id, Id>,
    folderOf: map<Id, Id>,
    defects: map<Id, Defect>,
    raised: seq<(Id, Id)>,
    links: map<Id, Link>,
    releaseStates: map<Id, ReleaseStatus>,
    next: Id)

  function EmptyWorld(projects: set<Id>): World {
    World(EmptyDb(projects), map[], map[], map[], map[], map[], map[], [], map[], map[], 0)
  }

  // ------------------------------------------------------------------ requirements and defects

  predicate RequirementMoves(a: RequirementStatus, b: RequirementStatus) {
    (a, b) in {(RequirementStatus.Draft, RequirementStatus.Active),
               (RequirementStatus.Active, RequirementStatus.Fulfilled),
               (RequirementStatus.Fulfilled, RequirementStatus.Active),
               (RequirementStatus.Active, RequirementStatus.Archived),
               (RequirementStatus.Draft, RequirementStatus.Archived),
               (RequirementStatus.Fulfilled, RequirementStatus.Archived),
               (RequirementStatus.Archived, RequirementStatus.Draft)}
  }

  predicate DefectMoves(a: DefectStatus, b: DefectStatus) {
    (a, b) in {(New, Open), (New, Rejected), (Open, DefectStatus.InProgress), (Open, Rejected),
               (DefectStatus.InProgress, Resolved), (DefectStatus.InProgress, Open), (Resolved, Closed),
               (Resolved, Open), (Closed, Open)}
  }

  function CreateRequirement(w: World, project: Id, status: RequirementStatus, release: Option<Id>): Result<World> {
    if project !in w.db.projects then Err(NotFound) else
    if !PL.KnownRelease(w.db, project, release) then Err(Invalid) else
    if !status.Draft? && !status.Active? then Err(Invalid) else
    Ok(w.(requirements := w.requirements[w.next := Requirement(project, status, release)], next := w.next + 1))
  }

  function SetRequirementRelease(w: World, r: Id, release: Option<Id>): Result<World> {
    if r !in w.requirements then Err(NotFound) else
    if !PL.KnownRelease(w.db, w.requirements[r].project, release) then Err(Invalid) else
    Ok(w.(requirements := w.requirements[r := w.requirements[r].(release := release)]))
  }

  function TransitionRequirement(w: World, r: Id, status: RequirementStatus): Result<World> {
    if r !in w.requirements then Err(NotFound) else
    if !RequirementMoves(w.requirements[r].status, status) then Err(NotAllowed) else
    Ok(w.(requirements := w.requirements[r := w.requirements[r].(status := status)]))
  }

  predicate Mentions(link: Link, e: Entity) {
    link.source == e || link.target == e
  }

  /** The links that do not mention the entity; removed ones go too. */
  function LinksWithout(links: map<Id, Link>, e: Entity): map<Id, Link> {
    map l | l in links && !Mentions(links[l], e) :: links[l]
  }

  function Freed(scenarios: map<Id, Scenario>, r: Id): map<Id, Scenario> {
    map s | s in scenarios ::
      if scenarios[s].requirement == Some(r) then scenarios[s].(requirement := None) else scenarios[s]
  }

  /** The links of the requirement are deleted outright, and its scenarios lose it. */
  function DeleteRequirement(w: World, r: Id): Result<World> {
    if r !in w.requirements then Err(NotFound) else
    Ok(w.(requirements := w.requirements - {r}, links := LinksWithout(w.links, Entity(RequirementKind, r)),
          scenarios := Freed(w.scenarios, r)))
  }

  predicate KnownRequirement(w: World, project: Id, requirement: Option<Id>) {
    requirement.Some? ==>
      requirement.value in w.requirements && w.requirements[requirement.value].project == project
  }

  function CreateScenario(w: World, project: Id, title: string, requirement: Option<Id>): Result<World> {
    if project !in w.db.projects then Err(NotFound) else
    if Strip(title) == "" then Err(Invalid) else
    if !KnownRequirement(w, project, requirement) then Err(Invalid) else
    Ok(w.(scenarios := w.scenarios[w.next := Scenario(project, requirement, false)], next := w.next + 1))
  }

  function UpdateScenario(w: World, s: Id, requirement: Option<Id>): Result<World> {
    if s !in w.scenarios then Err(NotFound) else
    if w.scenarios[s].archived then Err(NotAllowed) else
    if !KnownRequirement(w, w.scenarios[s].project, requirement) then Err(Invalid) else
    Ok(w.(scenarios := w.scenarios[s := w.scenarios[s].(requirement := requirement)]))
  }

  function ArchiveScenario(w: World, s: Id, archived: bool): Result<World> {
    if s !in w.scenarios then Err(NotFound) else
    Ok(w.(scenarios := w.scenarios[s := w.scenarios[s].(archived := archived)]))
  }

  function SetTestCaseScenario(w: World, c: Id, scenario: Option<Id>): Result<World> {
    if c !in w.db.cases then Err(NotFound) else
    if scenario.None? then Ok(w.(scenarioOf := w.scenarioOf - {c})) else
    if scenario.value !in w.scenarios || w.scenarios[scenario.value].project != w.db.cases[c].project
      then Err(Invalid) else
    if w.scenarios[scenario.value].archived then Err(Invalid) else
    Ok(w.(scenarioOf := w.scenarioOf[c := scenario.value]))
  }

  // ------------------------------------------------------------------ where a test case is filed

  function CreateFolder(w: World, project: Id): Result<World> {
    if project !in w.db.projects then Err(NotFound) else
    Ok(w.(folders := w.folders[w.next := project], next := w.next + 1))
  }

  predicate KnownFolder(w: World, project: Id, folder: Option<Id>) {
    folder.Some? ==> folder.value in w.folders && w.folders[folder.value] == project
  }

  /** Here even an archived scenario is accepted; only moving a case into one is refused. */
  predicate KnownScenario(w: World, project: Id, scenario: Option<Id>) {
    scenario.Some? ==> scenario.value in w.scenarios && w.scenarios[scenario.value].project == project
  }

  function Filed(of: map<Id, Id>, c: Id, place: Option<Id>): map<Id, Id> {
    if place.Some? then of[c := place.value] else of - {c}
  }

  /** A new case with the folder and the scenario it is filed under. */
  function CreateTestCase(
    w: World, project: Id, title: string, description: Option<string>, preconditions: Option<string>,
    steps: seq<TC.StepInput>, automation: Automation, folder: Option<Id>, scenario: Option<Id>
  ): Result<World> {
    match TC.CreateTestCase(w.db, project, title, description, preconditions, steps, automation)
    case Err(e) => Err(e)
    case Ok(next) =>
      if !KnownFolder(w, project, folder) || !KnownScenario(w, project, scenario) then Err(Invalid) else
      Ok(w.(db := next, folderOf := Filed(w.folderOf, w.db.nextId, folder),
            scenarioOf := Filed(w.scenarioOf, w.db.nextId, scenario)))
  }

  function FolderOf(w: World, c: Id): Option<Id> {
    if c in w.folderOf then Some(w.folderOf[c]) else None
  }

  /** An edit that may also move the case; `folder` is None when the caller leaves it out. */
  ghost function UpdateTestCase(
    w: World, c: Id, expected: nat, edit: TC.Edit, folder: Option<Option<Id>>
  ): Result<World> {
    match TC.UpdateTestCase(w.db, c, expected, edit)
    case Err(e) => Err(e)
    case Ok(next) =>
      if folder.None? || folder.value == FolderOf(w, c) || c !in w.db.cases then Ok(w.(db := next)) else
      if !KnownFolder(w, w.db.cases[c].project, folder.value) then Err(Invalid) else
      Ok(w.(db := next, folderOf := Filed(w.folderOf, c, folder.value)))
  }

  // ------------------------------------------------------------------ releases and defects

  predicate ReleaseMoves(a: ReleaseStatus, b: ReleaseStatus) {
    (a, b) in {(Planned, ReleaseStatus.Active), (ReleaseStatus.Active, Released), (Planned, Cancelled),
               (ReleaseStatus.Active, Cancelled), (Released, ReleaseStatus.Archived),
               (Cancelled, ReleaseStatus.Archived), (Planned, ReleaseStatus.Archived)}
  }

  function ReleaseState(w: World, r: Id): ReleaseStatus {
    if r in w.releaseStates then w.releaseStates[r] else Planned
  }

  function TransitionRelease(w: World, r: Id, status: ReleaseStatus): Result<World> {
    if r !in w.db.releases then Err(NotFound) else
    if !ReleaseMoves(ReleaseState(w, r), status) then Err(NotAllowed) else
    Ok(w.(releaseStates := w.releaseStates[r := status]))
  }

  function CreateDefect(w: World, project: Id, severity: Severity, release: Option<Id>): Result<World> {
    if project !in w.db.projects then Err(NotFound) else
    if !PL.KnownRelease(w.db, project, release) then Err(Invalid) else
    Ok(w.(defects := w.defects[w.next := Defect(project, severity, New, release)], next := w.next + 1))
  }

  function TransitionDefect(w: World, d: Id, status: DefectStatus): Result<World> {
    if d !in w.defects then Err(NotFound) else
    if !DefectMoves(w.defects[d].status, status) then Err(NotAllowed) else
    Ok(w.(defects := w.defects[d := w.defects[d].(status := status)]))
  }

  function LinkDefect(w: World, a: Id, d: Id): Result<World> {
    if a !in w.db.attempts then Err(NotFound) else
    if d !in w.defects || w.defects[d].project != w.db.attempts[a].project then Err(Invalid) else
    if (a, d) in w.raised then Ok(w) else Ok(w.(raised := w.raised + [(a, d)]))
  }

  // ------------------------------------------------------------------ trace links

  function Legal(source: Kind, target: Kind): Option<Relationship> {
    match (source, target)
    case (RequirementKind, CaseKind) => Some(Covers)
    case (RequirementKind, ReleaseKind) => Some(Targets)
    case (ReleaseKind, PlanKind) => Some(Scopes)
    case (ReleaseKind, CycleKind) => Some(Scopes)
    case (VersionKind, CycleTestKind) => Some(PlannedAs)
    case (CycleTestKind, AttemptKind) => Some(ExecutedBy)
    case (AttemptKind, DefectKind) => Some(Raised)
    case (DefectKind, RequirementKind) => Some(Regresses)
    case (DefectKind, ReleaseKind) => Some(Affects)
    case _ => None
  }

  /** _entity_project */
  function EntityProject(w: World, e: Entity): Option<Id> {
    match e.kind
    case RequirementKind => if e.id in w.requirements then Some(w.requirements[e.id].project) else None
    case ReleaseKind => if e.id in w.db.releases then Some(w.db.releases[e.id]) else None
    case PlanKind => if e.id in w.db.plans then Some(w.db.plans[e.id].project) else None
    case CycleKind => if e.id in w.db.cycles then Some(w.db.cycles[e.id].project) else None
    case CaseKind => if e.id in w.db.cases then Some(w.db.cases[e.id].project) else None
    case VersionKind =>
      if e.id in w.db.versions && w.db.versions[e.id].caseId in w.db.cases
      then Some(w.db.cases[w.db.versions[e.id].caseId].project)
      else None
    case CycleTestKind => if e.id in w.db.tests then Some(w.db.tests[e.id].project) else None
    case AttemptKind => if e.id in w.db.attempts then Some(w.db.attempts[e.id].project) else None
    case DefectKind => if e.id in w.defects then Some(w.defects[e.id].project) else None
    case Unknown(_) => None
  }

  predicate SameEnds(a: Link, b: Link) {
    a.source == b.source && a.target == b.target
  }

  /** The relationship is a function of the two types, so the duplicate query need not
      mention it separately. */
  predicate Duplicates(w: World, source: Entity, target: Entity, relation: Relationship) {
    exists l :: l in w.links
      && w.links[l].source == source && w.links[l].target == target && w.links[l].relation == relation
      && !w.links[l].removed
  }

  function CreateLink(w: World, project: Id, source: Entity, target: Entity): Result<World> {
    var relation := Legal(source.kind, target.kind);
    if relation.None? then Err(Invalid) else
    if EntityProject(w, source) != Some(project) then Err(Invalid) else
    if EntityProject(w, target) != Some(project) then Err(Invalid) else
    if Duplicates(w, source, target, relation.value) then Err(Duplicate) else
    Ok(w.(links := w.links[w.next := Link(project, source, target, relation.value, false)], next := w.next + 1))
  }

  function RemoveLink(w: World, l: Id): Result<World> {
    if l !in w.links || w.links[l].removed then Err(NotFound) else
    Ok(w.(links := w.links[l := w.links[l].(removed := true)]))
  }
}

/** The link services as statements on the session, each proved against its function. */
module BacklogServices {
  import opened Common
  import opened Tables
  import opened Backlog

  /** The session's view of the tables: the services below change it row by row. */
  class Session {
    var world: World

    constructor (w: World)
      ensures world == w
    {
      world := w;
    }

    ghost predicate Did(before: World, spec: Result<World>, error: Option<Error>)
      reads this
    {
      match spec
      case Ok(after) => error.None? && world == after
      case Err(e) => error == Some(e) && world == before
    }

    method CreateLink(project: Id, source: Entity, target: Entity) returns (error: Option<Error>)
      modifies this
      ensures Did(old(world), Backlog.CreateLink(old(world), project, source, target), error)
      ensures error.None? ==> Legal(source.kind, target.kind).Some?
      ensures error.None? ==> !Duplicates(old(world), source, target, Legal(source.kind, target.kind).value)
      ensures error.None? ==> Duplicates(world, source, target, Legal(source.kind, target.kind).value)
    {
      var relation := Legal(source.kind, target.kind);
      if relation.None? { return Some(Invalid); }
      var ends := [source, target];
      for i := 0 to |ends|
        invariant world == old(world)
        invariant forall k :: 0 <= k < i ==> EntityProject(world, ends[k]) == Some(project)
      {
        var found := EntityProject(world, ends[i]);
        if found.None? || found.value != project {
          assert ends[i] == source || ends[i] == target;
          return Some(Invalid);
        }
      }
      assert EntityProject(world, ends[0]) == EntityProject(world, ends[1]) == Some(project);
      if Duplicates(world, source, target, relation.value) { return Some(Duplicate); }
      var row := Link(project, source, target, relation.value, false);
      ghost var id := world.next;
      world := world.(links := world.links[world.next := row]);
      world := world.(next := world.next + 1);
      assert world.links[id] == row;
      return None;
    }

    method RemoveLink(l: Id) returns (error: Option<Error>)
      modifies this
      ensures Did(old(world), Backlog.RemoveLink(old(world), l), error)
      ensures Backlog.RemoveLink(world, l) == Err(NotFound)
    {
      if l !in world.links { return Some(NotFound); }
      var link := world.links[l];
      if link.removed { return Some(NotFound); }
      link := link.(removed := true);
      world := world.(links := world.links[l := link]);
      return None;
    }

    method DeleteRequirement(r: Id) returns (error: Option<Error>)
      modifies this
      ensures Did(old(world), Backlog.DeleteRequirement(old(world), r), error)
      ensures forall l :: l in world.links && error.None? ==> !Mentions(world.links[l], Entity(RequirementKind, r))
      ensures forall s :: s in world.scenarios && error.None? ==> world.scenarios[s].requirement != Some(r)
    {
      if r !in world.requirements { return Some(NotFound); }
      world := world.(links := LinksWithout(world.links, Entity(RequirementKind, r)));
      world := world.(scenarios := Freed(world.scenarios, r));
      world := world.(requirements := world.requirements - {r});
      return None;
    }

    method LinkDefect(a: Id, d: Id) returns (error: Option<Error>)
      modifies this
      ensures Did(old(world), Backlog.LinkDefect(old(world), a, d), error)
      ensures error.None? ==> (a, d) in world.raised && (old(NoDuplicates(world.raised)) ==> NoDuplicates(world.raised))
    {
      if a !in world.db.attempts { return Some(NotFound); }
      if d !in world.defects || world.defects[d].project != world.db.attempts[a].project { return Some(Invalid); }
      if (a, d) in world.raised { return None; }
      world := world.(raised := world.raised + [(a, d)]);
      return None;
    }
  }
}
