/** What the test repository says, told from the calls alone: every column of a case and of its
    current version is what the last call that gave it said. */
module CaseHistory {
  import opened Common
  import opened Tables
  import opened Evidence
  import opened Preservation
  import opened Runs
  import opened Ledger
  import TC = TestCases

  // ------------------------------------------------------------------ what one edit writes

  /** The rows that a list of steps is stored as. */
  function RowsFor(inputs: seq<TC.StepInput>): seq<StepText> {
    seq(|inputs|, i requires 0 <= i < |inputs| =>
      StepText(i + 1, Strip(inputs[i].action), Strip(inputs[i].expected), inputs[i].required))
  }

  /** After is before with what the edit gives: each column is the argument where there is one,
      and stays where there is none. */
  ghost predicate Edits(before: Version, edit: TC.Edit, after: Content) {
    && after.title == (if edit.title.Some? then Strip(edit.title.value) else before.title)
    && after.description == (if edit.description.Some? then edit.description else before.description)
    && after.preconditions == (if edit.preconditions.Some? then edit.preconditions else before.preconditions)
    && after.steps == (if edit.steps.Some? then RowsFor(edit.steps.value) else before.steps)
  }

  predicate SameContent(v: Version, w: Version) {
    v.title == w.title && v.description == w.description && v.preconditions == w.preconditions && v.steps == w.steps
  }

  /** What an update leaves behind: each argument in its own column of the current version, in
      place if that was a draft, and in a new draft if it was not and something changes; every
      other version as it was. */
  ghost predicate Updated(db: Db, c: Id, edit: TC.Edit, next: Db)
    requires c in db.cases && c in next.cases
  {
    var v, w := db.cases[c].current, next.cases[c].current;
    && v in db.versions && v in next.versions && w in next.versions
    && Edits(db.versions[v], edit, ContentOf(next.versions[w]))
    && next.cases[c].title == next.versions[w].title && next.versions[w].caseId == c
    && (w == v <==> db.versions[v].status.Draft? || SameContent(db.versions[v], next.versions[w]))
    && (w != v ==> w == db.nextId && next.versions[w].status.Draft? && !next.versions[w].locked)
    && (w == v ==> next.versions[v].status == db.versions[v].status)
    && next.versions == db.versions[w := next.versions[w]]
    && next.nextId == db.nextId + (if w == v then 0 else 1)
    && next.cases == db.cases[c := next.cases[c]]
    && next.cases[c] == db.cases[c].(title := next.cases[c].title, current := w, rev := db.cases[c].rev + 1)
  }

  lemma UpdateWritesColumns(db: Db, c: Id, expected: nat, edit: TC.Edit, next: Db)
    requires Inv(db) && TC.UpdateTestCase(db, c, expected, edit) == Ok(next)
    ensures c in db.cases && c in next.cases && Updated(db, c, edit, next)
  {
    hide HistoriesOk, CyclesOk, TestsOk, LiveOnce, OneOpen, AttemptsOk, RetestsOk;
    assert CaseOk(db.cases, db.versions, c) && VersionOk(db.cases, db.versions, db.cases[c].current);
    assert db.nextId !in db.versions;
    hide RepositoryOk, Below;
    var before := db.versions[db.cases[c].current];
    TC.ControlledExactly(before, edit);
    ContentIsEdited(before, edit);
    hide TC.Controlled, TC.NewContent, Edits, TC.Numbered, TC.EditDraft, TC.Fork, Updated;
    if !TC.Controlled(before, edit) {
      NothingWritten(db, c, edit, next);
    } else if before.status.Draft? {
      DraftWritten(db, c, edit, TC.NewContent(before, edit), next);
    } else {
      ForkWritten(db, c, edit, TC.NewContent(before, edit), next);
    }
  }

  lemma ContentIsEdited(before: Version, edit: TC.Edit)
    ensures Edits(before, edit, TC.NewContent(before, edit))
  {
    hide Strip;
  }

  lemma NothingWritten(db: Db, c: Id, edit: TC.Edit, next: Db)
    requires c in db.cases && db.cases[c].current in db.versions && CaseOk(db.cases, db.versions, c)
    requires next == db.(cases := db.cases[c := db.cases[c].(rev := db.cases[c].rev + 1)])
    requires Edits(db.versions[db.cases[c].current], edit, ContentOf(db.versions[db.cases[c].current]))
    ensures Updated(db, c, edit, next)
  {
    hide Strip;
  }

  lemma DraftWritten(db: Db, c: Id, edit: TC.Edit, content: Content, next: Db)
    requires c in db.cases && db.cases[c].current in db.versions && next == TC.EditDraft(db, c, content)
    requires db.versions[db.cases[c].current].status.Draft? && CaseOk(db.cases, db.versions, c)
    requires Edits(db.versions[db.cases[c].current], edit, content)
    ensures Updated(db, c, edit, next)
  {
    hide Strip;
  }

  lemma ForkWritten(db: Db, c: Id, edit: TC.Edit, content: Content, next: Db)
    requires c in db.cases && db.cases[c].current in db.versions && next == TC.Fork(db, c, content)
    requires !db.versions[db.cases[c].current].status.Draft? && db.nextId !in db.versions
    requires Edits(db.versions[db.cases[c].current], edit, content)
    requires content != ContentOf(db.versions[db.cases[c].current])
    ensures Updated(db, c, edit, next)
  {
    hide Strip, TC.NextVersionNumber;
  }

  /** A new case has every argument in its own column, and one draft version that says the same. */
  lemma CreateWritesColumns(
    db: Db, project: Id, title: string, description: Option<string>, preconditions: Option<string>,
    steps: seq<TC.StepInput>, automation: Automation, next: Db)
    requires TC.CreateTestCase(db, project, title, description, preconditions, steps, automation) == Ok(next)
    ensures var c, v := db.nextId, db.nextId + 1;
      && c in next.cases && v in next.versions && Strip(title) != "" && project in db.projects
      && var tc, row := next.cases[c], next.versions[v];
         && tc.project == project && tc.title == Strip(title) && tc.lifecycle.Draft? && tc.current == v
         && tc.approved.None? && tc.automation == automation && tc.rev == 1
         && (tc.eligible <==> automation.Candidate? || automation.Automated?)
         && row.caseId == c && row.number == 1 && row.status.Draft? && !row.locked
         && row.title == Strip(title) && row.description == description && row.preconditions == preconditions
         && row.steps == RowsFor(steps)
         && next == db.(cases := db.cases[c := tc], versions := db.versions[v := row], nextId := db.nextId + 2)
  {
    hide Strip;
  }

  // ------------------------------------------------------------------ what the transitions write

  function StateFor(status: VersionStatus): Lifecycle {
    match status
    case InReview => Lifecycle.InReview
    case Approved => Lifecycle.Approved
    case _ => Lifecycle.Draft
  }

  /** What a review decision leaves behind: the current version has the new status and, once
      approved, is locked and pointed at, and the version approved before is superseded. */
  ghost predicate Decided(db: Db, c: Id, target: VersionStatus, next: Db)
    requires c in db.cases
  {
    var tc := db.cases[c];
    && tc.current in db.versions && next == db.(cases := next.cases, versions := next.versions)
    && next.cases == db.cases[c := tc.(
         lifecycle := StateFor(target), approved := if target.Approved? then Some(tc.current) else tc.approved,
         rev := tc.rev + 1)]
    && next.versions.Keys == db.versions.Keys
    && next.versions[tc.current] ==
         db.versions[tc.current].(status := target, locked := db.versions[tc.current].locked || target.Approved?)
    && forall v :: v in db.versions && v != tc.current ==>
         next.versions[v] ==
           if target.Approved? && tc.approved == Some(v) then db.versions[v].(status := Superseded) else db.versions[v]
  }

  lemma DecisionWrites(db: Db, c: Id, target: VersionStatus, expected: nat, next: Db)
    requires TC.TransitionVersion(db, c, target, expected) == Ok(next)
    ensures c in db.cases && expected == db.cases[c].rev && Decided(db, c, target, next)
  {
    hide TC.Reviewable;
  }

  lemma LifecycleWrites(db: Db, c: Id, target: Lifecycle, expected: nat, next: Db)
    requires TC.TransitionLifecycle(db, c, target, expected) == Ok(next)
    ensures c in db.cases && expected == db.cases[c].rev
    ensures next == db.(cases := db.cases[c := db.cases[c].(lifecycle := target, rev := expected + 1)])
  {}

  // ------------------------------------------------------------------ columns over a run

  datatype Column = Title | Description | Preconditions | Steps | State | Status | Pointer

  datatype Value =
    | Text(text: string)
    | Optional(value: Option<string>)
    | Rows(rows: seq<StepText>)
    | StateIs(state: Lifecycle)
    | StatusIs(status: VersionStatus)
    | PointsTo(version: Option<Id>)

  /** What a column of a case, or of its current version, holds. */
  ghost function ValueOf(db: Db, c: Id, col: Column): Value
    requires c in db.cases && db.cases[c].current in db.versions
  {
    var tc, v := db.cases[c], db.versions[db.cases[c].current];
    match col
    case Title => Text(v.title)
    case Description => Optional(v.description)
    case Preconditions => Optional(v.preconditions)
    case Steps => Rows(v.steps)
    case State => StateIs(tc.lifecycle)
    case Status => StatusIs(v.status)
    case Pointer => PointsTo(tc.approved)
  }

  /** What an edit gives of the column. */
  function EditGives(edit: TC.Edit, col: Column): Option<Value> {
    match col
    case Title => if edit.title.Some? then Some(Text(Strip(edit.title.value))) else None
    case Description => if edit.description.Some? then Some(Optional(edit.description)) else None
    case Preconditions => if edit.preconditions.Some? then Some(Optional(edit.preconditions)) else None
    case Steps => if edit.steps.Some? then Some(Rows(RowsFor(edit.steps.value))) else None
    case _ => None
  }

  /** What an accepted call gives of the column. */
  ghost function CallGives(db: Db, call: Call, next: Db, c: Id, col: Column): Option<Value> {
    match call
    case CreateTestCase(_, title, description, preconditions, steps, _) =>
      if c != db.nextId then None
      else Some(match col
                case Title => Text(Strip(title))
                case Description => Optional(description)
                case Preconditions => Optional(preconditions)
                case Steps => Rows(RowsFor(steps))
                case State => StateIs(Lifecycle.Draft)
                case Status => StatusIs(VersionStatus.Draft)
                case Pointer => PointsTo(None))
    case UpdateTestCase(x, _, edit) =>
      if x != c then None
      else if col.Status? then (if next.nextId > db.nextId then Some(StatusIs(VersionStatus.Draft)) else None)
      else EditGives(edit, col)
    case TransitionVersion(x, status, _) =>
      if x != c then None
      else (match col
            case State => Some(StateIs(StateFor(status)))
            case Status => Some(StatusIs(status))
            case Pointer =>
               if status.Approved? && c in db.cases then Some(PointsTo(Some(db.cases[c].current))) else None
            case _ => None)
    case TransitionLifecycle(x, state, _) => if x == c && col.State? then Some(StateIs(state)) else None
    case _ => None
  }

  ghost function Gives(run: Trail, i: nat, c: Id, col: Column): Option<Value> {
    if run.Went(i) then CallGives(run.At(i), run.calls[i].1, run.At(i + 1), c, col) else None
  }

  /** Of the first n calls, the last that gave this column of c gave x. */
  ghost predicate LastGives(run: Trail, n: nat, c: Id, col: Column, x: Value) {
    exists i :: 0 <= i < n && Gives(run, i, c, col) == Some(x) && forall j :: i < j < n ==> Gives(run, j, c, col).None?
  }

  lemma GivesStep(run: Trail, m: nat, c: Id, col: Column, x: Value)
    ensures Gives(run, m, c, col) == Some(x) ==> LastGives(run, m + 1, c, col, x)
    ensures Gives(run, m, c, col).None? && LastGives(run, m, c, col, x) ==> LastGives(run, m + 1, c, col, x)
  {
    hide Gives;
    if i :| 0 <= i < m && Gives(run, i, c, col) == Some(x) && forall j :: i < j < m ==> Gives(run, j, c, col).None? {
      assert Gives(run, m, c, col).None? ==> forall j :: i < j < m + 1 ==> Gives(run, j, c, col).None?;
    }
  }

  /** The case and its current version are as they were. */
  ghost predicate CaseKept(db: Db, next: Db, c: Id) {
    c in db.cases && c in next.cases && next.cases[c] == db.cases[c]
    && db.cases[c].current in db.versions && db.cases[c].current in next.versions
    && next.versions[db.cases[c].current] == db.versions[db.cases[c].current]
  }

  lemma CurrentKnown(db: Db, c: Id)
    requires Inv(db) && c in db.cases
    ensures CaseOk(db.cases, db.versions, c) && c < db.nextId && db.cases[c].current < db.nextId
  {
    hide HistoriesOk, CyclesOk, TestsOk, LiveOnce, OneOpen, AttemptsOk, RetestsOk;
  }

  predicate Names(call: Call, c: Id) {
    || (call.UpdateTestCase? && call.case_ == c)
    || (call.TransitionVersion? && call.case_ == c)
    || (call.TransitionLifecycle? && call.case_ == c)
  }

  /** A call leaves every case it does not name or make alone. */
  lemma OtherCasesStay(db: Db, now: Time, call: Call, next: Db, c: Id)
    requires Inv(db) && Perform(db, now, call) == Ok(next) && c in db.cases && !Names(call, c)
    ensures CaseKept(db, next, c)
  {
    hide Inv, Perform;
    CurrentKnown(db, c);
    if RepositoryCall(call) {
      RepositoryKeepsOthers(db, now, call, next, c);
    } else {
      OtherTablesStay(db, now, call, next);
    }
  }

  lemma RepositoryKeepsOthers(db: Db, now: Time, call: Call, next: Db, c: Id)
    requires Inv(db) && RepositoryCall(call) && Perform(db, now, call) == Ok(next) && c in db.cases && !Names(call, c)
    ensures CaseKept(db, next, c)
  {
    hide TC.CreateTestCase, TC.UpdateTestCase, TC.TransitionVersion, TC.TransitionLifecycle, RepositoryOk, HistoriesOk,
      CyclesOk, TestsOk, LiveOnce, OneOpen, AttemptsOk, RetestsOk, TC.Numbered, Edits;
    CurrentKnown(db, c);
    match call
    case CreateTestCase(p, title, d, pre, steps, auto) =>
      CreateWritesColumns(db, p, title, d, pre, steps, auto, next);
      assert c < db.nextId && db.cases[c].current < db.nextId;
    case UpdateTestCase(x, expected, edit) =>
      UpdateWritesColumns(db, x, expected, edit, next);
      CurrentKnown(db, x);
      assert db.cases[c].current < db.nextId;
    case TransitionVersion(x, status, expected) =>
      DecisionWrites(db, x, status, expected, next);
      CurrentKnown(db, x);
    case TransitionLifecycle(x, state, expected) =>
      LifecycleWrites(db, x, state, expected, next);
  }

  lemma ColumnStep(db: Db, now: Time, call: Call, next: Db, c: Id, col: Column)
    requires Inv(db) && Inv(next) && Perform(db, now, call) == Ok(next)
    ensures c in next.cases ==>
              && next.cases[c].current in next.versions
              && match CallGives(db, call, next, c, col)
                 case Some(x) => ValueOf(next, c, col) == x
                 case None =>
                    c in db.cases && db.cases[c].current in db.versions && ValueOf(next, c, col) == ValueOf(db, c, col)
    ensures c !in next.cases ==> c !in db.cases && CallGives(db, call, next, c, col).None?
  {
    hide Inv, Perform, CallGives;
    if c in db.cases { CurrentKnown(db, c); }
    if c in next.cases { CurrentKnown(next, c); }
    if c in db.cases && !Names(call, c) {
      OtherCasesStay(db, now, call, next, c);
      NoneGivenElsewhere(db, call, next, c, col);
    } else if Names(call, c) {
      NamedColumn(db, now, call, next, c, col);
    } else {
      NewColumn(db, now, call, next, c, col);
    }
  }

  lemma NoneGivenElsewhere(db: Db, call: Call, next: Db, c: Id, col: Column)
    requires !Names(call, c) && (call.CreateTestCase? ==> c != db.nextId)
    ensures CallGives(db, call, next, c, col).None?
  {}

  lemma NamedColumn(db: Db, now: Time, call: Call, next: Db, c: Id, col: Column)
    requires Inv(db) && Perform(db, now, call) == Ok(next) && Names(call, c)
    ensures c in db.cases && c in next.cases
    ensures db.cases[c].current in db.versions && next.cases[c].current in next.versions
    ensures match CallGives(db, call, next, c, col)
            case Some(x) => ValueOf(next, c, col) == x
            case None => ValueOf(next, c, col) == ValueOf(db, c, col)
  {
    hide Inv, TC.UpdateTestCase, TC.TransitionVersion, TC.TransitionLifecycle, CallGives;
    match call
    case UpdateTestCase(_, expected, edit) => UpdateColumn(db, c, expected, edit, next, col);
    case TransitionVersion(_, status, expected) => DecisionColumn(db, c, status, expected, next, col);
    case TransitionLifecycle(_, state, expected) => LifecycleColumn(db, c, state, expected, next, col);
  }

  lemma UpdateColumn(db: Db, c: Id, expected: nat, edit: TC.Edit, next: Db, col: Column)
    requires Inv(db) && TC.UpdateTestCase(db, c, expected, edit) == Ok(next)
    ensures c in db.cases && c in next.cases
    ensures db.cases[c].current in db.versions && next.cases[c].current in next.versions
    ensures match CallGives(db, Call.UpdateTestCase(c, expected, edit), next, c, col)
            case Some(x) => ValueOf(next, c, col) == x
            case None => ValueOf(next, c, col) == ValueOf(db, c, col)
  {
    hide Inv;
    UpdateWritesColumns(db, c, expected, edit, next);
    hide TC.UpdateTestCase, Strip, RowsFor;
  }

  lemma DecisionColumn(db: Db, c: Id, status: VersionStatus, expected: nat, next: Db, col: Column)
    requires TC.TransitionVersion(db, c, status, expected) == Ok(next)
    ensures c in db.cases && c in next.cases
    ensures db.cases[c].current in db.versions && next.cases[c].current in next.versions
    ensures match CallGives(db, Call.TransitionVersion(c, status, expected), next, c, col)
            case Some(x) => ValueOf(next, c, col) == x
            case None => ValueOf(next, c, col) == ValueOf(db, c, col)
  {
    DecisionWrites(db, c, status, expected, next);
    hide TC.TransitionVersion;
  }

  lemma LifecycleColumn(db: Db, c: Id, state: Lifecycle, expected: nat, next: Db, col: Column)
    requires Inv(db) && TC.TransitionLifecycle(db, c, state, expected) == Ok(next)
    ensures c in db.cases && c in next.cases
    ensures db.cases[c].current in db.versions && next.cases[c].current in next.versions
    ensures match CallGives(db, Call.TransitionLifecycle(c, state, expected), next, c, col)
            case Some(x) => ValueOf(next, c, col) == x
            case None => ValueOf(next, c, col) == ValueOf(db, c, col)
  {
    hide Inv;
    LifecycleWrites(db, c, state, expected, next);
    CurrentKnown(db, c);
    hide TC.TransitionLifecycle;
  }

  lemma NewColumn(db: Db, now: Time, call: Call, next: Db, c: Id, col: Column)
    requires Inv(db) && Perform(db, now, call) == Ok(next) && c !in db.cases && !Names(call, c)
    ensures c in next.cases ==>
              && call.CreateTestCase? && next.cases[c].current in next.versions
              && CallGives(db, call, next, c, col) == Some(ValueOf(next, c, col))
    ensures c !in next.cases ==> CallGives(db, call, next, c, col).None?
  {
    hide Inv, Perform, CallGives;
    if call.CreateTestCase? {
      CreateColumn(db, now, call, next, c, col);
    } else {
      CasesAreNotNew(db, now, call, next);
      NoneGivenElsewhere(db, call, next, c, col);
    }
  }

  lemma CreateColumn(db: Db, now: Time, call: Call, next: Db, c: Id, col: Column)
    requires call.CreateTestCase? && Perform(db, now, call) == Ok(next) && c !in db.cases
    ensures c in next.cases ==>
              && next.cases[c].current in next.versions
              && CallGives(db, call, next, c, col) == Some(ValueOf(next, c, col))
    ensures c !in next.cases ==> CallGives(db, call, next, c, col).None?
  {
    hide TC.CreateTestCase, Strip, RowsFor;
    CreateWritesColumns(db, call.project, call.title, call.description, call.preconditions, call.steps,
                        call.automation, next);
  }

  lemma CasesAreNotNew(db: Db, now: Time, call: Call, next: Db)
    requires Inv(db) && Perform(db, now, call) == Ok(next) && !call.CreateTestCase?
    ensures next.cases.Keys == db.cases.Keys
  {
    hide Inv;
    if RepositoryCall(call) {
      hide TC.UpdateTestCase, TC.TransitionVersion, TC.TransitionLifecycle;
      match call
      case UpdateTestCase(c, expected, edit) => UpdateWritesColumns(db, c, expected, edit, next);
      case TransitionVersion(c, status, expected) => DecisionWrites(db, c, status, expected, next);
      case TransitionLifecycle(c, state, expected) => LifecycleWrites(db, c, state, expected, next);
    } else {
      hide Perform;
      OtherTablesStay(db, now, call, next);
    }
  }

  /** Title, description, preconditions, steps, lifecycle, status and approved version of a case
      are each what the last call that gave it said. */
  lemma {:induction false} ColumnsAreLastGiven(run: Trail, n: nat, c: Id, col: Column)
    requires n <= |run.calls| && c in run.At(n).cases
    ensures run.At(n).cases[c].current in run.At(n).versions
    ensures LastGives(run, n, c, col, ValueOf(run.At(n), c, col))
  {
    hide Inv, Grows, Perform, CallGives, LastGives, ValueOf;
    if n == 0 {
      StartsEmpty(run);
    } else {
      var m := n - 1;
      NextAt(run, m);
      NextBy(run, m);
      GivenNow(run, m, c, col);
      if run.Went(m) {
        ColumnStep(run.At(m), run.calls[m].0, run.calls[m].1, run.At(n), c, col);
      }
      if c in run.At(m).cases {
        ColumnsAreLastGiven(run, m, c, col);
        GivesStep(run, m, c, col, ValueOf(run.At(m), c, col));
      }
      GivesStep(run, m, c, col, ValueOf(run.At(n), c, col));
    }
  }

  lemma GivenNow(run: Trail, i: nat, c: Id, col: Column)
    ensures run.Went(i) ==> Gives(run, i, c, col) == CallGives(run.At(i), run.calls[i].1, run.At(i + 1), c, col)
    ensures !run.Went(i) ==> Gives(run, i, c, col).None?
  {
    hide Perform, CallGives;
  }

  // ------------------------------------------------------------------ no lost updates

  /** How many of the first n calls wrote to case c. */
  ghost function Writes(run: Trail, n: nat, c: Id): nat {
    if n == 0 then 0
    else Writes(run, n - 1, c) + if run.Went(n - 1) && Names(run.calls[n - 1].1, c) then 1 else 0
  }

  predicate ExpectedIs(call: Call, c: Id, rev: nat) {
    match call
    case UpdateTestCase(x, expected, _) => x == c ==> expected == rev
    case TransitionVersion(x, _, expected) => x == c ==> expected == rev
    case TransitionLifecycle(x, _, expected) => x == c ==> expected == rev
    case _ => true
  }

  lemma RevisionStep(db: Db, now: Time, call: Call, next: Db, c: Id)
    requires Inv(db) && Perform(db, now, call) == Ok(next)
    ensures c in next.cases ==>
              next.cases[c].rev == if c !in db.cases then 1 else db.cases[c].rev + if Names(call, c) then 1 else 0
    ensures Names(call, c) ==> c in db.cases && ExpectedIs(call, c, db.cases[c].rev)
    ensures c in db.cases ==> c in next.cases
  {
    hide Inv, Perform;
    if Names(call, c) {
      NamedRevision(db, now, call, next, c);
    } else if c in db.cases {
      OtherCasesStay(db, now, call, next, c);
    } else if call.CreateTestCase? {
      FirstRevision(db, now, call, next, c);
    } else {
      CasesAreNotNew(db, now, call, next);
    }
  }

  lemma NamedRevision(db: Db, now: Time, call: Call, next: Db, c: Id)
    requires Inv(db) && Perform(db, now, call) == Ok(next) && Names(call, c)
    ensures c in db.cases && c in next.cases && next.cases[c].rev == db.cases[c].rev + 1
    ensures ExpectedIs(call, c, db.cases[c].rev)
  {
    hide Inv, TC.TransitionVersion, TC.TransitionLifecycle, TC.Controlled, TC.NewContent, TC.EditDraft, TC.Fork;
    match call
    case UpdateTestCase(_, expected, edit) => UpdateWritesColumns(db, c, expected, edit, next);
    case TransitionVersion(_, status, expected) => DecisionWrites(db, c, status, expected, next);
    case TransitionLifecycle(_, state, expected) => LifecycleWrites(db, c, state, expected, next);
  }

  lemma FirstRevision(db: Db, now: Time, call: Call, next: Db, c: Id)
    requires call.CreateTestCase? && Perform(db, now, call) == Ok(next) && c !in db.cases
    ensures c in next.cases ==> next.cases[c].rev == 1
  {
    hide Strip, TC.StepRows;
  }

  /** The row version of a case counts the calls that wrote to it. */
  lemma {:induction false} RevisionCountsWrites(run: Trail, n: nat, c: Id)
    requires n <= |run.calls|
    ensures if c in run.At(n).cases then run.At(n).cases[c].rev == 1 + Writes(run, n, c) else Writes(run, n, c) == 0
  {
    hide Inv, Grows, Perform;
    if n == 0 {
      StartsEmpty(run);
    } else {
      var m := n - 1;
      RevisionCountsWrites(run, m, c);
      NextAt(run, m);
      NextBy(run, m);
      if run.Went(m) {
        RevisionStep(run.At(m), run.calls[m].0, run.calls[m].1, run.At(n), c);
      }
    }
  }

  /** Of two accepted writes to one case the later one had seen the earlier: no update is lost. */
  lemma NoUpdateIsLost(run: Trail, i: nat, j: nat, c: Id, seen: nat, seenLater: nat)
    requires i < j && run.Went(i) && run.Went(j) && Names(run.calls[i].1, c) && Names(run.calls[j].1, c)
    requires ExpectedIs(run.calls[i].1, c, seen) && ExpectedIs(run.calls[j].1, c, seenLater)
    ensures seen == 1 + Writes(run, i, c) && seenLater == 1 + Writes(run, j, c) && seen < seenLater
  {
    hide Inv, Grows, Perform, Writes;
    SeenIsCount(run, i, c);
    SeenIsCount(run, j, c);
    WritesGrow(run, i, j, c);
  }

  lemma SeenIsCount(run: Trail, i: nat, c: Id)
    requires run.Went(i) && Names(run.calls[i].1, c)
    ensures ExpectedIs(run.calls[i].1, c, 1 + Writes(run, i, c))
  {
    hide Inv, Grows, Perform, Writes;
    NextAt(run, i);
    NextBy(run, i);
    RevisionCountsWrites(run, i, c);
    RevisionStep(run.At(i), run.calls[i].0, run.calls[i].1, run.At(i + 1), c);
  }

  lemma {:induction false} WritesGrow(run: Trail, i: nat, j: nat, c: Id)
    requires i < j && run.Went(i) && Names(run.calls[i].1, c)
    ensures Writes(run, i, c) < Writes(run, j, c)
    decreases j
  {
    hide Perform;
    if j == i + 1 {
    } else {
      WritesGrow(run, i, j - 1, c);
    }
  }

  // ------------------------------------------------------------------ what has been reviewed is complete

  /** It has a title and a step with an action and an expected result. */
  ghost predicate Complete(v: Version) {
    && Strip(v.title) != ""
    && exists i :: 0 <= i < |v.steps| && Strip(v.steps[i].action) != "" && Strip(v.steps[i].expected) != ""
  }

  /** The moves of a version, and what they ask. */
  ghost predicate MayDecide(v: Version, target: VersionStatus) {
    match target
    case Draft => v.status.InReview?
    case InReview => v.status.Draft? && Complete(v)
    case Approved => v.status.InReview?
    case Superseded => false
  }

  lemma ReviewableIsComplete(v: Version)
    ensures TC.Reviewable(v) <==> Complete(v)
  {
    hide Strip;
    if TC.Reviewable(v) {
      var s :| s in v.steps && TC.ValidStep(s);
      var i :| 0 <= i < |v.steps| && v.steps[i] == s;
    }
    if i :| 0 <= i < |v.steps| && Strip(v.steps[i].action) != "" && Strip(v.steps[i].expected) != "" {
      assert v.steps[i] in v.steps && TC.ValidStep(v.steps[i]);
    }
  }

  lemma DecisionAccepts(db: Db, c: Id, target: VersionStatus, expected: nat)
    ensures TC.TransitionVersion(db, c, target, expected).Ok? <==>
              && c in db.cases && expected == db.cases[c].rev && db.cases[c].current in db.versions
              && MayDecide(db.versions[db.cases[c].current], target)
  {
    hide TC.Supersede, TC.Reviewable, Complete;
    if c in db.cases && db.cases[c].current in db.versions {
      ReviewableIsComplete(db.versions[db.cases[c].current]);
    }
  }

  ghost predicate ReviewedComplete(versions: map<Id, Version>) {
    forall v :: v in versions && !versions[v].status.Draft? ==> Complete(versions[v])
  }

  lemma ReviewStep(db: Db, now: Time, call: Call, next: Db)
    requires Inv(db) && Perform(db, now, call) == Ok(next) && ReviewedComplete(db.versions)
    ensures ReviewedComplete(next.versions)
  {
    hide Inv, Perform, ReviewedComplete;
    if RepositoryCall(call) {
      ReviewCallStep(db, now, call, next);
    } else {
      OtherTablesStay(db, now, call, next);
    }
  }

  lemma ReviewCallStep(db: Db, now: Time, call: Call, next: Db)
    requires Inv(db) && RepositoryCall(call) && Perform(db, now, call) == Ok(next) && ReviewedComplete(db.versions)
    ensures ReviewedComplete(next.versions)
  {
    hide Inv, TC.CreateTestCase, TC.UpdateTestCase, TC.TransitionVersion, TC.TransitionLifecycle, Strip, RowsFor, Edits,
      Complete;
    match call
    case CreateTestCase(p, title, d, pre, steps, auto) => CreateWritesColumns(db, p, title, d, pre, steps, auto, next);
    case UpdateTestCase(c, expected, edit) =>
      UpdateWritesColumns(db, c, expected, edit, next);
      if SameContent(db.versions[db.cases[c].current], next.versions[next.cases[c].current]) {
        SameIsComplete(db.versions[db.cases[c].current], next.versions[next.cases[c].current]);
      }
    case TransitionVersion(c, status, expected) =>
      DecisionWrites(db, c, status, expected, next);
      DecisionAccepts(db, c, status, expected);
      CurrentKnown(db, c);
      forall v | v in db.versions ensures Complete(next.versions[v]) <==> Complete(db.versions[v]) {
        SameIsComplete(db.versions[v], next.versions[v]);
      }
    case TransitionLifecycle(c, state, expected) => LifecycleWrites(db, c, state, expected, next);
  }

  lemma SameIsComplete(v: Version, w: Version)
    requires SameContent(v, w)
    ensures Complete(v) <==> Complete(w)
  {
    hide Strip;
  }

  /** Whatever was sent to review, approved or superseded has a title and a step that says what
      to do and what to expect. */
  lemma {:induction false} ReviewedIsComplete(run: Trail, n: nat)
    requires n <= |run.calls|
    ensures ReviewedComplete(run.At(n).versions)
  {
    hide Inv, Grows, Perform;
    if n == 0 {
      StartsEmpty(run);
    } else {
      ReviewedIsComplete(run, n - 1);
      NextAt(run, n - 1);
      NextBy(run, n - 1);
      hide ReviewedComplete;
      if run.Went(n - 1) {
        ReviewStep(run.At(n - 1), run.calls[n - 1].0, run.calls[n - 1].1, run.At(n));
      }
    }
  }

  // ------------------------------------------------------------------ which changes are accepted

  ghost predicate AcceptsWrite(run: Trail, n: nat, call: Call)
    requires n <= |run.calls|
  {
    var db := run.At(n);
    match call
    case CreateTestCase(p, title, _, _, _, _) => p in db.projects && Strip(title) != ""
    case UpdateTestCase(c, expected, _) =>
      c in db.cases && expected == 1 + Writes(run, n, c) && !LastGives(run, n, c, State, StateIs(Lifecycle.Archived))
    case TransitionVersion(c, status, expected) =>
      && c in db.cases && expected == 1 + Writes(run, n, c)
      && (match status
          case Draft => LastGives(run, n, c, Status, StatusIs(VersionStatus.InReview))
          case InReview =>
            && LastGives(run, n, c, Status, StatusIs(VersionStatus.Draft))
            && db.cases[c].current in db.versions && Complete(db.versions[db.cases[c].current])
          case Approved => LastGives(run, n, c, Status, StatusIs(VersionStatus.InReview))
          case Superseded => false)
    case TransitionLifecycle(c, state, expected) =>
      && c in db.cases && expected == 1 + Writes(run, n, c)
      && (match state
          case Active =>
            || LastGives(run, n, c, State, StateIs(Lifecycle.Approved))
            || LastGives(run, n, c, State, StateIs(Lifecycle.Deprecated))
          case Deprecated => LastGives(run, n, c, State, StateIs(Lifecycle.Active))
          case Archived => !LastGives(run, n, c, State, StateIs(Lifecycle.Archived))
          case Draft => LastGives(run, n, c, State, StateIs(Lifecycle.Archived))
          case _ => false)
    case _ => false
  }

  lemma GivenIsHeld(run: Trail, n: nat, c: Id, col: Column, x: Value)
    requires n <= |run.calls| && c in run.At(n).cases
    ensures run.At(n).cases[c].current in run.At(n).versions
    ensures LastGives(run, n, c, col, x) <==> ValueOf(run.At(n), c, col) == x
  {
    hide ValueOf, Gives;
    ColumnsAreLastGiven(run, n, c, col);
  }

  /** A write to a case is accepted exactly when it has seen every write before it and the case
      is where that step starts: reviewed from draft if complete, decided from review, activated
      from approved or deprecated, and never edited while archived. */
  lemma WriteAcceptedExactly(run: Trail, n: nat, now: Time, call: Call)
    requires n <= |run.calls| && RepositoryCall(call)
    ensures Perform(run.At(n), now, call).Ok? <==> AcceptsWrite(run, n, call)
  {
    hide Inv, LastGives, Writes, Complete, TC.CreateTestCase, TC.UpdateTestCase, TC.TransitionVersion,
      TC.TransitionLifecycle;
    var db := run.At(n);
    AtInv(run, n);
    match call
    case CreateTestCase(p, title, d, pre, steps, auto) => CreateAccepts(db, p, title, d, pre, steps, auto);
    case UpdateTestCase(c, expected, edit) =>
      RevisionCountsWrites(run, n, c);
      if c in db.cases {
        CurrentKnown(db, c);
        GivenIsHeld(run, n, c, State, StateIs(Lifecycle.Archived));
      }
      UpdateAccepts(db, c, expected, edit);
    case TransitionVersion(c, status, expected) =>
      RevisionCountsWrites(run, n, c);
      if c in db.cases {
        GivenIsHeld(run, n, c, Status, StatusIs(VersionStatus.InReview));
        GivenIsHeld(run, n, c, Status, StatusIs(VersionStatus.Draft));
      }
      DecisionAccepts(db, c, status, expected);
    case TransitionLifecycle(c, state, expected) =>
      RevisionCountsWrites(run, n, c);
      if c in db.cases {
        CurrentKnown(db, c);
        StatesHeld(run, n, c);
      }
      LifecycleAccepts(db, c, state, expected);
  }

  lemma StatesHeld(run: Trail, n: nat, c: Id)
    requires n <= |run.calls| && c in run.At(n).cases
    ensures forall s :: LastGives(run, n, c, State, StateIs(s)) <==> run.At(n).cases[c].lifecycle == s
  {
    forall s ensures LastGives(run, n, c, State, StateIs(s)) <==> run.At(n).cases[c].lifecycle == s {
      GivenIsHeld(run, n, c, State, StateIs(s));
    }
    hide LastGives;
  }

  lemma CreateAccepts(
    db: Db, p: Id, title: string, d: Option<string>, pre: Option<string>, steps: seq<TC.StepInput>, auto: Automation)
    ensures TC.CreateTestCase(db, p, title, d, pre, steps, auto).Ok? <==> p in db.projects && Strip(title) != ""
  {
    hide Strip, TC.StepRows;
  }

  lemma UpdateAccepts(db: Db, c: Id, expected: nat, edit: TC.Edit)
    requires c in db.cases ==> db.cases[c].current in db.versions
    ensures TC.UpdateTestCase(db, c, expected, edit).Ok? <==>
              c in db.cases && expected == db.cases[c].rev && !db.cases[c].lifecycle.Archived?
  {
    hide TC.Controlled, TC.NewContent, TC.EditDraft, TC.Fork;
  }

  lemma LifecycleAccepts(db: Db, c: Id, state: Lifecycle, expected: nat)
    requires c in db.cases && NeedsApproval(db.cases[c].lifecycle) ==> db.cases[c].approved.Some?
    ensures TC.TransitionLifecycle(db, c, state, expected).Ok? <==>
              && c in db.cases && expected == db.cases[c].rev
              && match state
                 case Active => db.cases[c].lifecycle.Approved? || db.cases[c].lifecycle.Deprecated?
                 case Deprecated => db.cases[c].lifecycle.Active?
                 case Archived => !db.cases[c].lifecycle.Archived?
                 case Draft => db.cases[c].lifecycle.Archived?
                 case _ => false
  {}
}
