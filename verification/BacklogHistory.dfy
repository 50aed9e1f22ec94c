/** What the backlog tables say, told from the acts alone: each status and each reference is what
    the last act that gave it said, and a link is what the call that made it named. */
module BacklogHistory {
  import opened Common
  import opened Tables
  import opened Evidence
  import opened Backlog
  import opened Traceability
  import TC = TestCases
  import PL = Planning

  /** A history of acts from the empty tables of these projects. */
  datatype Journal = Journal(projects: set<Id>, acts: seq<(Time, Act)>) {

    ghost function At(n: nat): World
      requires n <= |acts|
    {
      ReachedWorld(projects, acts[..n])
    }

    /** The i-th act was not refused. */
    ghost predicate Went(i: nat) {
      i < |acts| && Outcome(At(i), acts[i].0, acts[i].1).Ok?
    }
  }

  lemma NextWorld(run: Journal, n: nat)
    requires n < |run.acts|
    ensures run.Went(n) ==> Outcome(run.At(n), run.acts[n].0, run.acts[n].1) == Ok(run.At(n + 1))
    ensures !run.Went(n) ==> run.At(n + 1) == run.At(n)
  {
    hide Outcome;
    assert run.acts[..n + 1][..n] == run.acts[..n];
  }

  lemma StartsEmpty(run: Journal)
    ensures run.At(0) == EmptyWorld(run.projects)
  {}

  // ------------------------------------------------------------------ what an act writes

  datatype Place =
    | RequirementState(r: Id) | RequirementRelease(r: Id)
    | ScenarioRequirement(s: Id) | ScenarioArchived(s: Id)
    | CaseScenario(c: Id) | CaseFolder(c: Id)
    | DefectState(d: Id) | StateOfRelease(release: Id) | LinkRemoved(l: Id)

  datatype Held =
    | Nothing
    | RequirementIs(requirementStatus: RequirementStatus)
    | DefectIs(defectStatus: DefectStatus)
    | ReleaseIs(releaseStatus: ReleaseStatus)
    | Reference(to: Option<Id>)
    | Flag(flag: bool)

  /** What the tables hold at a place. */
  function Holds(w: World, place: Place): Held {
    match place
    case RequirementState(r) => if r in w.requirements then RequirementIs(w.requirements[r].status) else Nothing
    case RequirementRelease(r) => if r in w.requirements then Reference(w.requirements[r].release) else Nothing
    case ScenarioRequirement(s) => if s in w.scenarios then Reference(w.scenarios[s].requirement) else Nothing
    case ScenarioArchived(s) => if s in w.scenarios then Flag(w.scenarios[s].archived) else Nothing
    case CaseScenario(c) => Reference(if c in w.scenarioOf then Some(w.scenarioOf[c]) else None)
    case CaseFolder(c) => Reference(if c in w.folderOf then Some(w.folderOf[c]) else None)
    case DefectState(d) => if d in w.defects then DefectIs(w.defects[d].status) else Nothing
    case StateOfRelease(r) => ReleaseIs(if r in w.releaseStates then w.releaseStates[r] else Planned)
    case LinkRemoved(l) => if l in w.links then Flag(w.links[l].removed) else Nothing
  }

  /** What an accepted act gives at a place. */
  ghost function ActGives(w: World, act: Act, place: Place): Option<Held> {
    match (act, place)
    case (CreateRequirement(_, status, _), RequirementState(r)) =>
      if r == w.next then Some(RequirementIs(status)) else None
    case (CreateRequirement(_, _, release), RequirementRelease(r)) =>
      if r == w.next then Some(Reference(release)) else None
    case (SetRequirementRelease(x, release), RequirementRelease(r)) => if r == x then Some(Reference(release)) else None
    case (TransitionRequirement(x, status), RequirementState(r)) => if r == x then Some(RequirementIs(status)) else None
    case (DeleteRequirement(x), RequirementState(r)) => if r == x then Some(Nothing) else None
    case (DeleteRequirement(x), RequirementRelease(r)) => if r == x then Some(Nothing) else None
    case (DeleteRequirement(x), ScenarioRequirement(s)) =>
      if s in w.scenarios && w.scenarios[s].requirement == Some(x) then Some(Reference(None)) else None
    case (DeleteRequirement(x), LinkRemoved(l)) =>
      if l in w.links
         && (w.links[l].source == Entity(RequirementKind, x) || w.links[l].target == Entity(RequirementKind, x))
      then Some(Nothing) else None
    case (CreateScenario(_, _, requirement), ScenarioRequirement(s)) =>
      if s == w.next then Some(Reference(requirement)) else None
    case (CreateScenario(_, _, _), ScenarioArchived(s)) => if s == w.next then Some(Flag(false)) else None
    case (UpdateScenario(x, requirement), ScenarioRequirement(s)) =>
      if s == x then Some(Reference(requirement)) else None
    case (ArchiveScenario(x, archived), ScenarioArchived(s)) => if s == x then Some(Flag(archived)) else None
    case (SetTestCaseScenario(x, scenario), CaseScenario(c)) => if c == x then Some(Reference(scenario)) else None
    case (CreateCase(_, _, _, _, _, _, _, scenario), CaseScenario(c)) =>
      if c == w.db.nextId then Some(Reference(scenario)) else None
    case (CreateCase(_, _, _, _, _, _, folder, _), CaseFolder(c)) =>
      if c == w.db.nextId then Some(Reference(folder)) else None
    case (EditCase(x, _, _, move), CaseFolder(c)) =>
      if c == x && move.Some? then Some(Reference(move.value)) else None
    case (TransitionRelease(x, status), StateOfRelease(r)) => if r == x then Some(ReleaseIs(status)) else None
    case (CreateDefect(_, _, _), DefectState(d)) => if d == w.next then Some(DefectIs(New)) else None
    case (TransitionDefect(x, status), DefectState(d)) => if d == x then Some(DefectIs(status)) else None
    case (CreateLink(_, _, _), LinkRemoved(l)) => if l == w.next then Some(Flag(false)) else None
    case (RemoveLink(x), LinkRemoved(l)) => if l == x then Some(Flag(true)) else None
    case _ => None
  }

  /** After the act the place holds what the act gives, or what it held. */
  ghost predicate Written(w: World, act: Act, next: World, place: Place) {
    Holds(next, place) == match ActGives(w, act, place)
                          case Some(x) => x
                          case None => Holds(w, place)
  }

  lemma ActWrites(w: World, now: Time, act: Act, next: World, place: Place)
    requires RowIds(w) && Outcome(w, now, act) == Ok(next)
    ensures Written(w, act, next, place)
  {
    hide Written, RowIds, Apply, Backlog.CreateTestCase, Backlog.UpdateTestCase;
    if act.Core? {
      CoreWrites(w, act, next, place);
    } else if act.CreateCase? {
      CreateCaseWrites(w, act, next, place);
    } else if act.EditCase? {
      EditCaseWrites(w, act, next, place);
    } else {
      BacklogActWrites(w, now, act, next, place);
    }
  }

  lemma CoreWrites(w: World, act: Act, next: World, place: Place)
    requires act.Core? && next == w.(db := next.db)
    ensures Written(w, act, next, place)
  {}

  lemma CreateCaseWrites(w: World, act: Act, next: World, place: Place)
    requires act.CreateCase?
    requires Backlog.CreateTestCase(w, act.project, act.title, act.description, act.preconditions, act.steps,
                                    act.automation, act.folder, act.scenario) == Ok(next)
    ensures Written(w, act, next, place)
  {
    hide TC.CreateTestCase, KnownFolder, KnownScenario;
  }

  lemma EditCaseWrites(w: World, act: Act, next: World, place: Place)
    requires act.EditCase? && Backlog.UpdateTestCase(w, act.c, act.expected, act.edit, act.move) == Ok(next)
    ensures Written(w, act, next, place)
  {
    hide Backlog.UpdateTestCase;
    EditMoves(w, act.c, act.expected, act.edit, act.move, next);
    if place.CaseFolder? {
      assert FolderOf(next, place.c) ==
             if place.c == act.c && act.move.Some? then act.move.value else FolderOf(w, place.c);
    }
  }

  lemma EditMoves(w: World, c: Id, expected: nat, edit: TC.Edit, move: Option<Option<Id>>, next: World)
    requires Backlog.UpdateTestCase(w, c, expected, edit, move) == Ok(next)
    ensures next == w.(db := next.db, folderOf := next.folderOf)
    ensures forall x :: FolderOf(next, x) == if x == c && move.Some? then move.value else FolderOf(w, x)
  {
    EditShape(w, c, expected, edit, move, next);
    hide Backlog.UpdateTestCase;
  }

  lemma EditShape(w: World, c: Id, expected: nat, edit: TC.Edit, move: Option<Option<Id>>, next: World)
    requires Backlog.UpdateTestCase(w, c, expected, edit, move) == Ok(next)
    ensures next == w.(db := next.db, folderOf := next.folderOf)
    ensures next.folderOf ==
              if move.None? || move.value == FolderOf(w, c) then w.folderOf else Filed(w.folderOf, c, move.value)
  {
    EditNeedsCase(w.db, c, expected, edit);
    hide TC.UpdateTestCase, KnownFolder, FolderOf, Filed;
    var db := TC.UpdateTestCase(w.db, c, expected, edit).value;
    var stays := move.None? || move.value == FolderOf(w, c);
    assert next == if stays then w.(db := db) else w.(db := db, folderOf := Filed(w.folderOf, c, move.value));
    hide Backlog.UpdateTestCase;
  }

  lemma EditNeedsCase(db: Db, c: Id, expected: nat, edit: TC.Edit)
    ensures TC.UpdateTestCase(db, c, expected, edit).Ok? ==> c in db.cases
  {
    hide TC.Controlled, TC.NewContent, TC.EditDraft, TC.Fork;
  }

  lemma BacklogActWrites(w: World, now: Time, act: Act, next: World, place: Place)
    requires RowIds(w) && Outcome(w, now, act) == Ok(next) && !act.Core? && !act.CreateCase? && !act.EditCase?
    ensures Written(w, act, next, place)
  {
    hide Written, RowIds,
         Backlog.CreateRequirement, Backlog.SetRequirementRelease, Backlog.TransitionRequirement,
         Backlog.DeleteRequirement, Backlog.CreateScenario, Backlog.UpdateScenario, Backlog.ArchiveScenario,
         Backlog.SetTestCaseScenario, Backlog.CreateFolder, Backlog.TransitionRelease, Backlog.CreateDefect,
         Backlog.TransitionDefect, Backlog.LinkDefect, Backlog.CreateLink, Backlog.RemoveLink;
    match act
    case CreateRequirement(p, status, release) => CreateRequirementWrites(w, p, status, release, next, place);
    case SetRequirementRelease(r, release) => SetRequirementReleaseWrites(w, r, release, next, place);
    case TransitionRequirement(r, status) => TransitionRequirementWrites(w, r, status, next, place);
    case DeleteRequirement(r) => DeleteRequirementWrites(w, r, next, place);
    case CreateScenario(p, title, requirement) => CreateScenarioWrites(w, p, title, requirement, next, place);
    case UpdateScenario(s, requirement) => UpdateScenarioWrites(w, s, requirement, next, place);
    case ArchiveScenario(s, archived) => ArchiveScenarioWrites(w, s, archived, next, place);
    case SetTestCaseScenario(c, scenario) => SetTestCaseScenarioWrites(w, c, scenario, next, place);
    case CreateFolder(p) => CreateFolderWrites(w, p, next, place);
    case TransitionRelease(r, status) => TransitionReleaseWrites(w, r, status, next, place);
    case CreateDefect(p, severity, release) => CreateDefectWrites(w, p, severity, release, next, place);
    case TransitionDefect(d, status) => TransitionDefectWrites(w, d, status, next, place);
    case LinkDefect(a, d) => LinkDefectWrites(w, a, d, next, place);
    case CreateLink(p, source, target) => CreateLinkWrites(w, p, source, target, next, place);
    case RemoveLink(l) => RemoveLinkWrites(w, l, next, place);
  }

  lemma CreateRequirementWrites(w: World, p: Id, status: RequirementStatus, release: Option<Id>, next: World,
                                place: Place)
    requires RowIds(w) && Backlog.CreateRequirement(w, p, status, release) == Ok(next)
    ensures Written(w, CreateRequirement(p, status, release), next, place)
  {
    hide PL.KnownRelease;
  }

  lemma SetRequirementReleaseWrites(w: World, r: Id, release: Option<Id>, next: World, place: Place)
    requires Backlog.SetRequirementRelease(w, r, release) == Ok(next)
    ensures Written(w, SetRequirementRelease(r, release), next, place)
  {
    hide PL.KnownRelease;
  }

  lemma TransitionRequirementWrites(w: World, r: Id, status: RequirementStatus, next: World, place: Place)
    requires Backlog.TransitionRequirement(w, r, status) == Ok(next)
    ensures Written(w, TransitionRequirement(r, status), next, place)
  {
    hide RequirementMoves;
  }

  lemma DeleteRequirementWrites(w: World, r: Id, next: World, place: Place)
    requires Backlog.DeleteRequirement(w, r) == Ok(next)
    ensures Written(w, DeleteRequirement(r), next, place)
  {}

  lemma CreateScenarioWrites(w: World, p: Id, title: string, requirement: Option<Id>, next: World, place: Place)
    requires RowIds(w) && Backlog.CreateScenario(w, p, title, requirement) == Ok(next)
    ensures Written(w, CreateScenario(p, title, requirement), next, place)
  {
    hide Strip, KnownRequirement;
  }

  lemma UpdateScenarioWrites(w: World, s: Id, requirement: Option<Id>, next: World, place: Place)
    requires Backlog.UpdateScenario(w, s, requirement) == Ok(next)
    ensures Written(w, UpdateScenario(s, requirement), next, place)
  {
    hide KnownRequirement;
  }

  lemma ArchiveScenarioWrites(w: World, s: Id, archived: bool, next: World, place: Place)
    requires Backlog.ArchiveScenario(w, s, archived) == Ok(next)
    ensures Written(w, ArchiveScenario(s, archived), next, place)
  {}

  lemma SetTestCaseScenarioWrites(w: World, c: Id, scenario: Option<Id>, next: World, place: Place)
    requires Backlog.SetTestCaseScenario(w, c, scenario) == Ok(next)
    ensures Written(w, SetTestCaseScenario(c, scenario), next, place)
  {}

  lemma CreateFolderWrites(w: World, p: Id, next: World, place: Place)
    requires Backlog.CreateFolder(w, p) == Ok(next)
    ensures Written(w, CreateFolder(p), next, place)
  {}

  lemma TransitionReleaseWrites(w: World, r: Id, status: ReleaseStatus, next: World, place: Place)
    requires Backlog.TransitionRelease(w, r, status) == Ok(next)
    ensures Written(w, TransitionRelease(r, status), next, place)
  {
    hide ReleaseMoves;
  }

  lemma CreateDefectWrites(w: World, p: Id, severity: Severity, release: Option<Id>, next: World, place: Place)
    requires RowIds(w) && Backlog.CreateDefect(w, p, severity, release) == Ok(next)
    ensures Written(w, CreateDefect(p, severity, release), next, place)
  {
    hide PL.KnownRelease;
  }

  lemma TransitionDefectWrites(w: World, d: Id, status: DefectStatus, next: World, place: Place)
    requires Backlog.TransitionDefect(w, d, status) == Ok(next)
    ensures Written(w, TransitionDefect(d, status), next, place)
  {
    hide DefectMoves;
  }

  lemma LinkDefectWrites(w: World, a: Id, d: Id, next: World, place: Place)
    requires Backlog.LinkDefect(w, a, d) == Ok(next)
    ensures Written(w, LinkDefect(a, d), next, place)
  {}

  lemma CreateLinkWrites(w: World, p: Id, source: Entity, target: Entity, next: World, place: Place)
    requires RowIds(w) && Backlog.CreateLink(w, p, source, target) == Ok(next)
    ensures Written(w, CreateLink(p, source, target), next, place)
  {
    hide EntityProject, Legal, Duplicates;
  }

  lemma RemoveLinkWrites(w: World, l: Id, next: World, place: Place)
    requires Backlog.RemoveLink(w, l) == Ok(next)
    ensures Written(w, RemoveLink(l), next, place)
  {}

  // ------------------------------------------------------------------ places over a run

  ghost function Gives(run: Journal, i: nat, place: Place): Option<Held> {
    if run.Went(i) then ActGives(run.At(i), run.acts[i].1, place) else None
  }

  /** Of the first n acts the last that gave something at this place gave x; or none did, and it
      holds what the empty tables hold. */
  ghost predicate LastGives(run: Journal, n: nat, place: Place, x: Held) {
    || (exists i :: 0 <= i < n && Gives(run, i, place) == Some(x)
          && forall j :: i < j < n ==> Gives(run, j, place).None?)
    || (x == Holds(EmptyWorld(run.projects), place) && forall i :: 0 <= i < n ==> Gives(run, i, place).None?)
  }

  lemma GivesStep(run: Journal, m: nat, place: Place, x: Held)
    ensures Gives(run, m, place) == Some(x) ==> LastGives(run, m + 1, place, x)
    ensures Gives(run, m, place).None? && LastGives(run, m, place, x) ==> LastGives(run, m + 1, place, x)
  {
    hide Gives, Holds;
    if i :| 0 <= i < m && Gives(run, i, place) == Some(x) && forall j :: i < j < m ==> Gives(run, j, place).None? {
      assert Gives(run, m, place).None? ==> forall j :: i < j < m + 1 ==> Gives(run, j, place).None?;
    }
  }

  lemma GivenNow(run: Journal, i: nat, place: Place)
    ensures run.Went(i) ==> Gives(run, i, place) == ActGives(run.At(i), run.acts[i].1, place)
    ensures !run.Went(i) ==> Gives(run, i, place).None?
  {
    hide Outcome, ActGives;
  }

  lemma IdsKnown(run: Journal, n: nat)
    requires n <= |run.acts|
    ensures RowIds(run.At(n))
  {
    hide Inv, LinksOk, LiveOnceEach, RowIds;
    ReachedWorldInv(run.projects, run.acts[..n]);
  }

  /** Over every run of all the services: the status and the release of a requirement, the
      requirement of a scenario, the scenario and the folder of a case, the status of a defect and
      of a release, and whether a link is removed, are each what the last act that gave it said. */
  lemma {:induction false} PlacesAreLastGiven(run: Journal, n: nat, place: Place)
    requires n <= |run.acts|
    ensures LastGives(run, n, place, Holds(run.At(n), place))
  {
    hide Outcome, ActGives, RowIds;
    if n == 0 {
      StartsEmpty(run);
    } else {
      var m := n - 1;
      PlacesAreLastGiven(run, m, place);
      NextWorld(run, m);
      IdsKnown(run, m);
      GivenNow(run, m, place);
      hide LastGives, Gives, Holds;
      if run.Went(m) {
        ActWrites(run.At(m), run.acts[m].0, run.acts[m].1, run.At(n), place);
      }
      GivesStep(run, m, place, Holds(run.At(n), place));
    }
  }

  lemma GivenIsHeld(run: Journal, n: nat, place: Place, x: Held)
    requires n <= |run.acts|
    ensures LastGives(run, n, place, x) <==> Holds(run.At(n), place) == x
  {
    hide Gives, Holds;
    PlacesAreLastGiven(run, n, place);
  }

  // ------------------------------------------------------------------ which moves are accepted

  ghost predicate RequirementMayMove(run: Journal, n: nat, r: Id, status: RequirementStatus) {
    match status
    case Draft => LastGives(run, n, RequirementState(r), RequirementIs(RequirementStatus.Archived))
    case Active =>
      || LastGives(run, n, RequirementState(r), RequirementIs(RequirementStatus.Draft))
      || LastGives(run, n, RequirementState(r), RequirementIs(Fulfilled))
    case Fulfilled => LastGives(run, n, RequirementState(r), RequirementIs(RequirementStatus.Active))
    case Archived =>
      && !LastGives(run, n, RequirementState(r), RequirementIs(RequirementStatus.Archived))
      && !LastGives(run, n, RequirementState(r), Nothing)
  }

  ghost predicate DefectMayMove(run: Journal, n: nat, d: Id, status: DefectStatus) {
    match status
    case New => false
    case Open =>
      || LastGives(run, n, DefectState(d), DefectIs(New)) || LastGives(run, n, DefectState(d), DefectIs(Resolved))
      || LastGives(run, n, DefectState(d), DefectIs(Closed))
      || LastGives(run, n, DefectState(d), DefectIs(DefectStatus.InProgress))
    case InProgress => LastGives(run, n, DefectState(d), DefectIs(DefectStatus.Open))
    case Resolved => LastGives(run, n, DefectState(d), DefectIs(DefectStatus.InProgress))
    case Closed => LastGives(run, n, DefectState(d), DefectIs(Resolved))
    case Rejected =>
      LastGives(run, n, DefectState(d), DefectIs(New)) || LastGives(run, n, DefectState(d), DefectIs(DefectStatus.Open))
  }

  ghost predicate ReleaseMayMove(run: Journal, n: nat, r: Id, status: ReleaseStatus) {
    match status
    case Planned => false
    case Active => LastGives(run, n, StateOfRelease(r), ReleaseIs(Planned))
    case Released => LastGives(run, n, StateOfRelease(r), ReleaseIs(ReleaseStatus.Active))
    case Cancelled =>
      || LastGives(run, n, StateOfRelease(r), ReleaseIs(Planned))
      || LastGives(run, n, StateOfRelease(r), ReleaseIs(ReleaseStatus.Active))
    case Archived =>
      || LastGives(run, n, StateOfRelease(r), ReleaseIs(Planned))
      || LastGives(run, n, StateOfRelease(r), ReleaseIs(Released))
      || LastGives(run, n, StateOfRelease(r), ReleaseIs(Cancelled))
  }

  lemma RequirementAcceptedExactly(run: Journal, n: nat, r: Id, status: RequirementStatus)
    requires n <= |run.acts|
    ensures Backlog.TransitionRequirement(run.At(n), r, status).Ok? <==> RequirementMayMove(run, n, r, status)
  {
    hide LastGives;
    forall held
      ensures LastGives(run, n, RequirementState(r), held) <==> Holds(run.At(n), RequirementState(r)) == held
    {
      GivenIsHeld(run, n, RequirementState(r), held);
    }
  }

  lemma DefectAcceptedExactly(run: Journal, n: nat, d: Id, status: DefectStatus)
    requires n <= |run.acts|
    ensures Backlog.TransitionDefect(run.At(n), d, status).Ok? <==> DefectMayMove(run, n, d, status)
  {
    hide LastGives;
    forall held ensures LastGives(run, n, DefectState(d), held) <==> Holds(run.At(n), DefectState(d)) == held {
      GivenIsHeld(run, n, DefectState(d), held);
    }
  }

  lemma ReleaseAcceptedExactly(run: Journal, n: nat, r: Id, status: ReleaseStatus)
    requires n <= |run.acts|
    ensures Backlog.TransitionRelease(run.At(n), r, status).Ok? <==>
              r in run.At(n).db.releases && ReleaseMayMove(run, n, r, status)
  {
    hide LastGives;
    forall held ensures LastGives(run, n, StateOfRelease(r), held) <==> Holds(run.At(n), StateOfRelease(r)) == held {
      GivenIsHeld(run, n, StateOfRelease(r), held);
    }
  }

  /** A requirement that may be named: it was created, not deleted since, and in this project. */
  ghost predicate MayName(run: Journal, n: nat, project: Id, requirement: Option<Id>)
    requires n <= |run.acts|
  {
    requirement.Some? ==>
      && !LastGives(run, n, RequirementState(requirement.value), Nothing)
      && requirement.value in run.At(n).requirements && run.At(n).requirements[requirement.value].project == project
  }

  /** A scenario can be edited, and can take cases in, until it is archived and again once it is
      restored; archiving and restoring are always possible. A case can leave its scenario whatever
      state that is in. */
  lemma ScenarioAcceptedExactly(run: Journal, n: nat, s: Id, requirement: Option<Id>, archived: bool, c: Id)
    requires n <= |run.acts|
    ensures Backlog.UpdateScenario(run.At(n), s, requirement).Ok? <==>
              && LastGives(run, n, ScenarioArchived(s), Flag(false)) && s in run.At(n).scenarios
              && MayName(run, n, run.At(n).scenarios[s].project, requirement)
    ensures Backlog.ArchiveScenario(run.At(n), s, archived).Ok? <==> !LastGives(run, n, ScenarioArchived(s), Nothing)
    ensures Backlog.SetTestCaseScenario(run.At(n), c, Some(s)).Ok? <==>
              && c in run.At(n).db.cases && LastGives(run, n, ScenarioArchived(s), Flag(false))
              && s in run.At(n).scenarios && run.At(n).scenarios[s].project == run.At(n).db.cases[c].project
    ensures Backlog.SetTestCaseScenario(run.At(n), c, None).Ok? <==> c in run.At(n).db.cases
  {
    hide LastGives;
    forall held ensures LastGives(run, n, ScenarioArchived(s), held) <==> Holds(run.At(n), ScenarioArchived(s)) == held {
      GivenIsHeld(run, n, ScenarioArchived(s), held);
    }
    MayNameExactly(run, n, requirement);
  }

  lemma MayNameExactly(run: Journal, n: nat, requirement: Option<Id>)
    requires n <= |run.acts|
    ensures forall project ::
              MayName(run, n, project, requirement) <==> KnownRequirement(run.At(n), project, requirement)
  {
    hide LastGives;
    if requirement.Some? { GivenIsHeld(run, n, RequirementState(requirement.value), Nothing); }
  }

  /** A scenario needs a title that is not blank; a requirement starts as a draft or as active;
      a release that is named belongs to the project. */
  lemma CreationAcceptedExactly(run: Journal, n: nat, project: Id, title: string, requirement: Option<Id>,
                                status: RequirementStatus, severity: Severity, release: Option<Id>)
    requires n <= |run.acts|
    ensures var w := run.At(n);
            var released := release.None? || (release.value in w.db.releases && w.db.releases[release.value] == project);
      && (Backlog.CreateScenario(w, project, title, requirement).Ok? <==>
            project in w.db.projects && !Blank(title) && MayName(run, n, project, requirement))
      && (Backlog.CreateRequirement(w, project, status, release).Ok? <==>
            && project in w.db.projects && released
            && (status == RequirementStatus.Draft || status == RequirementStatus.Active))
      && (Backlog.CreateDefect(w, project, severity, release).Ok? <==> project in w.db.projects && released)
  {
    MayNameExactly(run, n, requirement);
    StripsToNothing(title);
    hide MayName, Strip, Blank;
  }

  /** Where a case is filed never matters to its content: a case is made, or edited, exactly when
      the repository accepts it and the folder is one of the project, or the one it is in already. A
      new case may even be filed under an archived scenario, which no case can be moved to. */
  lemma FilingAcceptedExactly(w: World, project: Id, title: string, description: Option<string>,
                              preconditions: Option<string>, steps: seq<TC.StepInput>, automation: Automation,
                              folder: Option<Id>, scenario: Option<Id>, c: Id, expected: nat, edit: TC.Edit)
    ensures Backlog.CreateTestCase(w, project, title, description, preconditions, steps, automation,
                                   folder, scenario).Ok? <==>
              && TC.CreateTestCase(w.db, project, title, description, preconditions, steps, automation).Ok?
              && (folder.None? || (folder.value in w.folders && w.folders[folder.value] == project))
              && (scenario.None? || (scenario.value in w.scenarios && w.scenarios[scenario.value].project == project))
    ensures Backlog.UpdateTestCase(w, c, expected, edit, None).Ok? <==> TC.UpdateTestCase(w.db, c, expected, edit).Ok?
    ensures Backlog.UpdateTestCase(w, c, expected, edit, Some(folder)).Ok? <==>
              && TC.UpdateTestCase(w.db, c, expected, edit).Ok? && c in w.db.cases
              && (folder.None? || Holds(w, CaseFolder(c)) == Reference(folder)
                  || (folder.value in w.folders && w.folders[folder.value] == w.db.cases[c].project))
  {
    EditNeedsCase(w.db, c, expected, edit);
    hide TC.CreateTestCase, TC.UpdateTestCase;
  }

  /** A defect can be raised on any attempt of its project, as often as one likes: the second time
      changes nothing. */
  lemma RaisingAcceptedExactly(w: World, a: Id, d: Id)
    ensures Backlog.LinkDefect(w, a, d).Ok? <==>
              a in w.db.attempts && d in w.defects && w.defects[d].project == w.db.attempts[a].project
    ensures Backlog.LinkDefect(w, a, d).Ok? ==>
              && var next := Backlog.LinkDefect(w, a, d).value;
              (a, d) in next.raised && Backlog.LinkDefect(next, a, d) == Ok(next)
  {
    if Backlog.LinkDefect(w, a, d).Ok? && (a, d) !in w.raised {
      assert (w.raised + [(a, d)])[|w.raised|] == (a, d);
    }
  }

  // ------------------------------------------------------------------ links

  /** The relationships there are, by the types they join. */
  predicate Joins(source: Kind, target: Kind, relation: Relationship) {
    (source, target, relation) in {
      (RequirementKind, CaseKind, Covers), (RequirementKind, ReleaseKind, Targets),
      (ReleaseKind, PlanKind, Scopes), (ReleaseKind, CycleKind, Scopes),
      (VersionKind, CycleTestKind, PlannedAs), (CycleTestKind, AttemptKind, ExecutedBy),
      (AttemptKind, DefectKind, Raised), (DefectKind, RequirementKind, Regresses), (DefectKind, ReleaseKind, Affects)}
  }

  /** The i-th act made link l, between these ends and of the kind that joins them. */
  ghost predicate LinkedAt(run: Journal, i: nat, l: Id, link: Link) {
    run.Went(i) && run.acts[i].1 == CreateLink(link.project, link.source, link.target) && run.At(i).next == l
    && Joins(link.source.kind, link.target.kind, link.relation)
  }

  /** A link says, for as long as it is there, what the call that made it named. */
  lemma {:induction false} LinkTellsItsCall(run: Journal, n: nat, l: Id)
    requires n <= |run.acts| && l in run.At(n).links
    ensures exists i :: 0 <= i < n && LinkedAt(run, i, l, run.At(n).links[l])
  {
    hide Outcome, RowIds, LinkedAt;
    if n == 0 {
      StartsEmpty(run);
    } else {
      var m := n - 1;
      NextWorld(run, m);
      IdsKnown(run, m);
      if run.Went(m) {
        LinkStep(run.At(m), run.acts[m].0, run.acts[m].1, run.At(n), l);
      }
      if l in run.At(m).links {
        LinkTellsItsCall(run, m, l);
        var i :| 0 <= i < m && LinkedAt(run, i, l, run.At(m).links[l]);
        LinkStays(run, i, l, run.At(m).links[l], run.At(n).links[l]);
      } else {
        LinkHere(run, m, l);
      }
    }
  }

  lemma LinkStays(run: Journal, i: nat, l: Id, before: Link, after: Link)
    requires LinkedAt(run, i, l, before) && after == before.(removed := after.removed)
    ensures LinkedAt(run, i, l, after)
  {
    hide Outcome, Joins;
  }

  lemma LinkHere(run: Journal, m: nat, l: Id)
    requires run.Went(m) && m < |run.acts| && l in run.At(m + 1).links && l == run.At(m).next
    requires var link := run.At(m + 1).links[l];
      && run.acts[m].1 == CreateLink(link.project, link.source, link.target)
      && Joins(link.source.kind, link.target.kind, link.relation)
    ensures LinkedAt(run, m, l, run.At(m + 1).links[l])
  {
    hide Outcome, Joins;
  }

  lemma LinkStep(w: World, now: Time, act: Act, next: World, l: Id)
    requires RowIds(w) && Outcome(w, now, act) == Ok(next) && l in next.links
    ensures l in w.links ==> next.links[l] == w.links[l].(removed := next.links[l].removed)
    ensures l !in w.links ==>
              var link := next.links[l];
              && l == w.next && act == CreateLink(link.project, link.source, link.target)
              && Joins(link.source.kind, link.target.kind, link.relation)
  {
    hide Backlog.CreateLink, Backlog.RemoveLink, Backlog.DeleteRequirement, RowIds, Joins, CoreOf;
    if OnLinks(act) {
      LinkActKeeps(w, now, act, next, l);
    } else if act.Core? || act.CreateCase? || act.EditCase? {
      CaseActKeepsLinks(w, now, act, next);
    } else {
      OtherActKeepsLinks(w, now, act, next);
    }
  }

  lemma LinkActKeeps(w: World, now: Time, act: Act, next: World, l: Id)
    requires RowIds(w) && Outcome(w, now, act) == Ok(next) && OnLinks(act) && l in next.links
    ensures l in w.links ==> next.links[l] == w.links[l].(removed := next.links[l].removed)
    ensures l !in w.links ==>
              var link := next.links[l];
              && l == w.next && act == CreateLink(link.project, link.source, link.target)
              && Joins(link.source.kind, link.target.kind, link.relation)
  {
    hide EntityProject, Duplicates, Legal, Joins;
    if act.CreateLink? { LegalJoins(act.source.kind, act.target.kind); }
  }

  lemma LegalJoins(source: Kind, target: Kind)
    ensures forall relation :: Legal(source, target) == Some(relation) <==> Joins(source, target, relation)
  {}

  lemma CaseActKeepsLinks(w: World, now: Time, act: Act, next: World)
    requires Outcome(w, now, act) == Ok(next) && (act.Core? || act.CreateCase? || act.EditCase?)
    ensures next.links == w.links
  {
    hide Apply, Backlog.CreateTestCase, Backlog.UpdateTestCase;
    if act.Core? {
    } else {
      hide Outcome;
      CaseActs(w, now, act);
    }
  }

  lemma OtherActKeepsLinks(w: World, now: Time, act: Act, next: World)
    requires Outcome(w, now, act) == Ok(next) && !OnLinks(act) && !act.Core? && !act.CreateCase? && !act.EditCase?
    ensures next.links == w.links
  {
    hide Outcome, RequirementsKept, DefectsKept, FilingKept;
    if OnRequirements(act) {
      RequirementsAside(w, now, act, next);
    } else if OnDefects(act) {
      DefectsAside(w, now, act, next);
    } else {
      FilingAside(w, now, act, next);
    }
  }

  /** What an end of a link can name: a row of this project. */
  ghost predicate NamesIn(w: World, project: Id, e: Entity) {
    || (e.kind == RequirementKind && e.id in w.requirements && w.requirements[e.id].project == project)
    || (e.kind == ReleaseKind && e.id in w.db.releases && w.db.releases[e.id] == project)
    || (e.kind == PlanKind && e.id in w.db.plans && w.db.plans[e.id].project == project)
    || (e.kind == CycleKind && e.id in w.db.cycles && w.db.cycles[e.id].project == project)
    || (e.kind == CaseKind && e.id in w.db.cases && w.db.cases[e.id].project == project)
    || (e.kind == VersionKind && e.id in w.db.versions && w.db.versions[e.id].caseId in w.db.cases
        && w.db.cases[w.db.versions[e.id].caseId].project == project)
    || (e.kind == CycleTestKind && e.id in w.db.tests && w.db.tests[e.id].project == project)
    || (e.kind == AttemptKind && e.id in w.db.attempts && w.db.attempts[e.id].project == project)
    || (e.kind == DefectKind && e.id in w.defects && w.defects[e.id].project == project)
  }

  lemma NamedInProject(w: World, project: Id, e: Entity)
    ensures EntityProject(w, e) == Some(project) <==> NamesIn(w, project, e)
  {}

  /** A link of these ends was made and is neither removed nor swept away. */
  ghost predicate Linked(run: Journal, n: nat, source: Entity, target: Entity)
    requires n <= |run.acts|
  {
    exists l :: l in run.At(n).links && LastGives(run, n, LinkRemoved(l), Flag(false))
      && run.At(n).links[l].source == source && run.At(n).links[l].target == target
  }

  /** A link is accepted exactly when the two types are joined by one of the nine relationships,
      both ends are of the project, and they are not linked already; one that was removed may be made
      again, and only a link that is there can be removed. */
  lemma LinkAcceptedExactly(run: Journal, n: nat, project: Id, source: Entity, target: Entity, l: Id)
    requires n <= |run.acts|
    ensures Backlog.CreateLink(run.At(n), project, source, target).Ok? <==>
              && (exists relation :: Joins(source.kind, target.kind, relation))
              && NamesIn(run.At(n), project, source) && NamesIn(run.At(n), project, target)
              && !Linked(run, n, source, target)
    ensures Backlog.RemoveLink(run.At(n), l).Ok? <==> LastGives(run, n, LinkRemoved(l), Flag(false))
  {
    var w := run.At(n);
    GivenIsHeld(run, n, LinkRemoved(l), Flag(false));
    NamedInProject(w, project, source);
    NamedInProject(w, project, target);
    LegalJoins(source.kind, target.kind);
    assert Legal(source.kind, target.kind).Some? ==>
        Joins(source.kind, target.kind, Legal(source.kind, target.kind).value);
    LinkedExactly(run, n, source, target);
    hide EntityProject, NamesIn, Legal, Joins, LastGives, Linked, Duplicates;
  }

  lemma LinkedExactly(run: Journal, n: nat, source: Entity, target: Entity)
    requires n <= |run.acts|
    ensures Legal(source.kind, target.kind).Some? ==>
              (Duplicates(run.At(n), source, target, Legal(source.kind, target.kind).value) <==>
                 Linked(run, n, source, target))
  {
    hide LastGives, Legal;
    var w := run.At(n);
    forall l ensures LastGives(run, n, LinkRemoved(l), Flag(false)) <==> l in w.links && !w.links[l].removed
    ensures l in w.links ==> Legal(w.links[l].source.kind, w.links[l].target.kind) == Some(w.links[l].relation)
    {
      GivenIsHeld(run, n, LinkRemoved(l), Flag(false));
      LinkIsLegal(run, n, l);
    }
  }

  lemma LinkIsLegal(run: Journal, n: nat, l: Id)
    requires n <= |run.acts|
    ensures var w := run.At(n);
            l in w.links ==> Legal(w.links[l].source.kind, w.links[l].target.kind) == Some(w.links[l].relation)
  {
    hide Inv, LiveOnceEach, RowIds, Legal, EndOk;
    ReachedWorldInv(run.projects, run.acts[..n]);
    var w := run.At(n);
    if l in w.links { assert LinkOk(w, l); }
  }
}
