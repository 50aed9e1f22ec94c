/** Test-case versioning (backend/app/domain/test_case/service.py, controlled_fields.py):
    what each service call does to the tables, as a function of the state before it. */
module TestCases {
  import opened Common
  import opened Tables

  datatype StepInput = StepInput(action: string, expected: string, required: bool)

  /** The optional arguments of update_test_case; None means "leave as it is". */
  datatype Edit = Edit(
    title: Option<string>, description: Option<string>, preconditions: Option<string>,
    steps: Option<seq<StepInput>>)

  // ------------------------------------------------------------------ steps

  function StepRow(index: nat, input: StepInput): StepText {
    StepText(index, Strip(input.action), Strip(input.expected), input.required)
  }

  /** The steps as rows, numbered from one. */
  function StepRows(inputs: seq<StepInput>): (rows: seq<StepText>)
    ensures |rows| == |inputs|
    ensures forall i :: 0 <= i < |inputs| ==> rows[i] == StepRow(i + 1, inputs[i])
  {
    seq(|inputs|, i requires 0 <= i < |inputs| => StepRow(i + 1, inputs[i]))
  }

  predicate Numbered(steps: seq<StepText>) {
    forall i :: 0 <= i < |steps| ==> steps[i].index == i + 1
  }

  function StepsDiffer(existing: seq<StepText>, incoming: seq<StepInput>): bool {
    || |existing| != |incoming|
    || exists i :: 0 <= i < |existing| && StepDiffers(existing[i], incoming[i])
  }

  function StepDiffers(e: StepText, i: StepInput): bool {
    e.action != Strip(i.action) || e.expected != Strip(i.expected) || e.required != i.required
  }

  /** On steps numbered 1..k the comparison is exact: no difference means that writing
      the incoming steps would reproduce the very same rows. */
  lemma StepsDifferExactly(existing: seq<StepText>, incoming: seq<StepInput>)
    requires Numbered(existing)
    ensures StepsDiffer(existing, incoming) <==> existing != StepRows(incoming)
  {
    if |existing| == |incoming| && existing != StepRows(incoming) {
      var i :| 0 <= i < |existing| && existing[i] != StepRows(incoming)[i];
      assert StepDiffers(existing[i], incoming[i]);
    }
  }

  predicate ValidStep(s: StepText) {
    Strip(s.action) != "" && Strip(s.expected) != ""
  }

  predicate Reviewable(v: Version) {
    Strip(v.title) != "" && exists s :: s in v.steps && ValidStep(s)
  }

  // ------------------------------------------------------------------ controlled fields

  const CONTROLLED_VERSION_FIELDS: set<string> :=
    {"title", "description", "preconditions", "controlled_metadata"}

  function NewTitle(v: Version, edit: Edit): string {
    if edit.title.None? then v.title else Strip(edit.title.value)
  }

  function NewContent(v: Version, edit: Edit): Content {
    Content(
      NewTitle(v, edit),
      if edit.description.None? then v.description else edit.description,
      if edit.preconditions.None? then v.preconditions else edit.preconditions,
      if edit.steps.None? then v.steps else StepRows(edit.steps.value))
  }

  function ChangedFields(v: Version, edit: Edit): set<string> {
    var c := NewContent(v, edit);
    (if edit.title.Some? && c.title != v.title then {"title"} else {})
    + (if edit.description.Some? && c.description != v.description then {"description"} else {})
    + (if edit.preconditions.Some? && c.preconditions != v.preconditions then {"preconditions"} else {})
  }

  function TouchesControlledContent(changedFields: set<string>, stepsChanged: bool): bool {
    stepsChanged || changedFields * CONTROLLED_VERSION_FIELDS != {}
  }

  function Controlled(v: Version, edit: Edit): bool {
    TouchesControlledContent(
      ChangedFields(v, edit), edit.steps.Some? && StepsDiffer(v.steps, edit.steps.value))
  }

  /** The fork decision is exact: it fires just when the content would really change. */
  lemma ControlledExactly(v: Version, edit: Edit)
    requires Numbered(v.steps)
    ensures Controlled(v, edit) <==> NewContent(v, edit) != ContentOf(v)
  {
    if edit.steps.Some? {
      StepsDifferExactly(v.steps, edit.steps.value);
    }
    var fields := ChangedFields(v, edit);
    assert fields * CONTROLLED_VERSION_FIELDS == fields;
    if fields != {} {
      var f :| f in fields;
    }
    assert "title" in fields <==> edit.title.Some? && NewTitle(v, edit) != v.title;
    assert "description" in fields <==> edit.description.Some? && edit.description != v.description;
    assert "preconditions" in fields <==> edit.preconditions.Some? && edit.preconditions != v.preconditions;
  }

  // ------------------------------------------------------------------ version numbers

  ghost function NumbersOf(versions: map<Id, Version>, c: Id): set<nat> {
    set v | v in versions && versions[v].caseId == c :: versions[v].number
  }

  /** The greatest number, 0 when there is none. */
  ghost function MaxOf(s: set<nat>): (m: nat)
    ensures s == {} ==> m == 0
    ensures s != {} ==> m in s
    ensures forall x :: x in s ==> x <= m
  {
    if s == {} then 0
    else
      var x :| x in s;
      var m := MaxOf(s - {x});
      assert s == (s - {x}) + {x};
      if m < x then x else m
  }

  ghost function NextVersionNumber(versions: map<Id, Version>, c: Id): nat {
    MaxOf(NumbersOf(versions, c)) + 1
  }

  // ------------------------------------------------------------------ services

  function CreateTestCase(
    db: Db, project: Id, title: string, description: Option<string>, preconditions: Option<string>,
    steps: seq<StepInput>, automation: Automation
  ): Result<Db> {
    if project !in db.projects then Err(NotFound) else
    if Strip(title) == "" then Err(Invalid) else
    var c, v := db.nextId, db.nextId + 1;
    Ok(db.(
       cases := db.cases[c := Case(project, Strip(title), Lifecycle.Draft, v, None,
                                   automation, !automation.NotApplicable?, 1)],
       versions := db.versions[v := Version(c, 1, VersionStatus.Draft, Strip(title), description,
                                            preconditions, false, StepRows(steps))],
       nextId := db.nextId + 2))
  }

  function Rewritten(v: Version, content: Content): Version {
    v.(title := content.title, description := content.description,
       preconditions := content.preconditions, steps := content.steps)
  }

  /** The working draft is changed in place. */
  function EditDraft(db: Db, c: Id, content: Content): Db
    requires c in db.cases && db.cases[c].current in db.versions
  {
    var tc := db.cases[c];
    db.(versions := db.versions[tc.current := Rewritten(db.versions[tc.current], content)],
        cases := db.cases[c := tc.(title := content.title, rev := tc.rev + 1)])
  }

  /** Anything past draft is left alone; the edit becomes a new draft version. */
  ghost function Fork(db: Db, c: Id, content: Content): Db
    requires c in db.cases
  {
    var tc := db.cases[c];
    var v := db.nextId;
    var fork := Version(c, NextVersionNumber(db.versions, c), VersionStatus.Draft,
                        content.title, content.description, content.preconditions,
                        false, content.steps);
    db.(versions := db.versions[v := fork],
        cases := db.cases[c := tc.(current := v, title := content.title, rev := tc.rev + 1)],
        nextId := v + 1)
  }

  ghost function UpdateTestCase(db: Db, c: Id, expected: nat, edit: Edit): Result<Db> {
    if c !in db.cases then Err(NotFound) else
    var tc := db.cases[c];
    if tc.rev != expected then Err(Conflict) else
    if tc.lifecycle.Archived? then Err(NotAllowed) else
    if tc.current !in db.versions then Err(Broken) else
    var current := db.versions[tc.current];
    var content := NewContent(current, edit);
    if !Controlled(current, edit) then Ok(db.(cases := db.cases[c := tc.(rev := tc.rev + 1)]))
    else if current.status.Draft? then Ok(EditDraft(db, c, content))
    else Ok(Fork(db, c, content))
  }

  predicate VersionMove(source: VersionStatus, target: VersionStatus) {
    || (source.Draft? && target.InReview?)
    || (source.InReview? && target.Draft?)
    || (source.InReview? && target.Approved?)
  }

  /** The version approved before is superseded, unless it is the one being approved. */
  function Supersede(versions: map<Id, Version>, tc: Case): map<Id, Version> {
    if tc.approved.Some? && tc.approved.value != tc.current && tc.approved.value in versions then
      versions[tc.approved.value := versions[tc.approved.value].(status := Superseded)]
    else versions
  }

  function TransitionVersion(db: Db, c: Id, target: VersionStatus, expected: nat): Result<Db> {
    if c !in db.cases then Err(NotFound) else
    var tc := db.cases[c];
    if tc.rev != expected then Err(Conflict) else
    if tc.current !in db.versions then Err(Broken) else
    var current := db.versions[tc.current];
    if !VersionMove(current.status, target) then Err(NotAllowed) else
    if target.InReview? && !Reviewable(current) then Err(Invalid) else
    if target.Approved? then
      Ok(db.(
         versions := Supersede(db.versions, tc)[tc.current := current.(status := target, locked := true)],
         cases := db.cases[c := tc.(approved := Some(tc.current), lifecycle := Lifecycle.Approved,
                                    rev := tc.rev + 1)]))
    else
      var lifecycle := if target.InReview? then Lifecycle.InReview else Lifecycle.Draft;
      Ok(db.(
         versions := db.versions[tc.current := current.(status := target)],
         cases := db.cases[c := tc.(lifecycle := lifecycle, rev := tc.rev + 1)]))
  }

  predicate LifecycleMove(source: Lifecycle, target: Lifecycle) {
    match target
    case Active => source.Approved? || source.Deprecated?
    case Deprecated => source.Active?
    case Archived => !source.Archived?
    case Draft => source.Archived?
    case _ => false
  }

  function TransitionLifecycle(db: Db, c: Id, target: Lifecycle, expected: nat): Result<Db> {
    if c !in db.cases then Err(NotFound) else
    var tc := db.cases[c];
    if tc.rev != expected then Err(Conflict) else
    if !LifecycleMove(tc.lifecycle, target) then Err(NotAllowed) else
    if target.Active? && tc.approved.None? then Err(NotAllowed) else
    Ok(db.(cases := db.cases[c := tc.(lifecycle := target, rev := tc.rev + 1)]))
  }
}
