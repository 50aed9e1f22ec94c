/** The service functions in the form the source gives them: statements that read rows, change
    them field by field in the session, and commit.  Each is proved against the function that
    says what the call does; an error leaves every table as it was (the session is rolled back). */
module Services {
  import opened Common
  import opened Tables
  import TC = TestCases
  import PL = Planning
  import EX = Execution

  /** `after` and `r` are what `spec` prescribes from `before`. */
  ghost predicate Meets(before: Db, spec: Result<Db>, r: Result<Id>, after: Db) {
    match spec
    case Ok(next) => r.Ok? && after == next
    case Err(e) => r == Err(e) && after == before
  }

  // ------------------------------------------------------------------ loops over steps

  /** One row a step, numbered from one, with blanks stripped. */
  method WriteSteps(inputs: seq<TC.StepInput>) returns (rows: seq<StepText>)
    ensures rows == TC.StepRows(inputs)
  {
    rows := [];
    var i := 1;
    while i <= |inputs|
      invariant 1 <= i <= |inputs| + 1 && |rows| == i - 1
      invariant forall k :: 0 <= k < |rows| ==> rows[k] == TC.StepRow(k + 1, inputs[k])
    {
      var s := inputs[i - 1];
      rows := rows + [StepText(i, Strip(s.action), Strip(s.expected), s.required)];
      i := i + 1;
    }
  }

  /** _steps_differ */
  method StepsDiffer(existing: seq<StepText>, incoming: seq<TC.StepInput>) returns (differ: bool)
    ensures differ <==> TC.StepsDiffer(existing, incoming)
  {
    if |existing| != |incoming| { return true; }
    for i := 0 to |existing|
      invariant forall k :: 0 <= k < i ==> !TC.StepDiffers(existing[k], incoming[k])
    {
      if existing[i].action != Strip(incoming[i].action) || existing[i].expected != Strip(incoming[i].expected)
         || existing[i].required != incoming[i].required
      {
        assert TC.StepDiffers(existing[i], incoming[i]);
        return true;
      }
    }
    return false;
  }

  /** The steps of a version, one row at a time, under the same order_index. */
  method CopySteps(steps: seq<StepText>) returns (copies: seq<StepText>)
    ensures copies == steps
  {
    copies := [];
    for i := 0 to |steps|
      invariant copies == steps[..i]
    {
      var s := steps[i];
      copies := copies + [StepText(s.index, s.action, s.expected, s.required)];
    }
  }

  method CopyToAttempt(steps: seq<StepText>) returns (marks: seq<StepMark>)
    ensures marks == FreshMarks(steps)
  {
    marks := [];
    for i := 0 to |steps|
      invariant marks == FreshMarks(steps[..i])
    {
      marks := marks + [StepMark(steps[i], StepNotRun)];
    }
    assert steps[..|steps|] == steps;
  }

  /** The database behind one session. */
  class Database {
    var projects: set<Id>
    var releases: map<Id, Id>
    var cases: map<Id, Case>
    var versions: map<Id, Version>
    var plans: map<Id, Plan>
    var cycles: map<Id, Cycle>
    var tests: map<Id, CycleTest>
    var attempts: map<Id, Attempt>
    var nextId: Id

    ghost function State(): Db
      reads this
    {
      Db(projects, releases, cases, versions, plans, cycles, tests, attempts, nextId)
    }

    constructor (projects: set<Id>)
      ensures State() == EmptyDb(projects)
    {
      this.projects := projects;
      releases, cases, versions, plans, cycles, tests, attempts, nextId :=
        map[], map[], map[], map[], map[], map[], map[], 0;
    }

    /** A fresh id. */
    method NewId() returns (id: Id)
      modifies this`nextId
      ensures id == old(nextId) && nextId == id + 1
    {
      id := nextId;
      nextId := nextId + 1;
    }

    // ---------------------------------------------------------------- test cases

    method CreateTestCase(
      project: Id, title: string, description: Option<string>, preconditions: Option<string>,
      steps: seq<TC.StepInput>, automation: Automation) returns (r: Result<Id>)
      modifies this
      ensures Meets(old(State()),
                    TC.CreateTestCase(old(State()), project, title, description, preconditions, steps, automation),
                    r, State())
    {
      if project !in projects { return Err(NotFound); }
      if Strip(title) == "" { return Err(Invalid); }
      var c := NewId();
      var v := NewId();
      var rows := WriteSteps(steps);
      versions := versions[
        v := Version(c, 1, VersionStatus.Draft, Strip(title), description, preconditions, false, rows)];
      cases := cases[c := Case(project, Strip(title), Lifecycle.Draft, v, None, automation,
                               automation != NotApplicable, 1)];
      return Ok(c);
    }

    /** One more than the highest version number of the case. */
    method NextVersionNumber(c: Id) returns (n: nat)
      ensures n == TC.NextVersionNumber(versions, c)
    {
      n := 0;
      var todo := versions.Keys;
      while todo != {}
        invariant todo <= versions.Keys
        invariant forall v :: v in versions && v !in todo && versions[v].caseId == c ==> versions[v].number <= n
        invariant n == 0 || n in TC.NumbersOf(versions, c)
      {
        var v :| v in todo;
        if versions[v].caseId == c && n < versions[v].number {
          n := versions[v].number;
          assert n in TC.NumbersOf(versions, c);
        }
        todo := todo - {v};
      }
      n := n + 1;
    }

    method UpdateTestCase(c: Id, expected: nat, edit: TC.Edit) returns (r: Result<Id>)
      modifies this
      ensures Meets(old(State()), TC.UpdateTestCase(old(State()), c, expected, edit), r, State())
    {
      hide Strip, TC.Controlled, TC.NewContent, TC.StepRows;
      if c !in cases { return Err(NotFound); }
      var tc := cases[c];
      if tc.rev != expected { return Err(Conflict); }
      if tc.lifecycle == Lifecycle.Archived { return Err(NotAllowed); }
      if tc.current !in versions { return Err(Broken); }
      var current := versions[tc.current];
      var controlled := TouchesControlledContent(current, edit);
      if !controlled {
        cases := cases[c := tc.(rev := tc.rev + 1)];
        return Ok(c);
      }

      var target, row := tc.current, current;
      var forked := current.status != VersionStatus.Draft;
      if forked {
        var number := NextVersionNumber(c);
        target := NewId();
        row := Version(c, number, VersionStatus.Draft, "", None, None, false, []);
      }
      row := WriteContent(current, row, edit, forked);
      versions := versions[target := row];
      cases := cases[c := tc.(current := target, title := row.title, rev := tc.rev + 1)];
      return Ok(c);
    }

    /** Collect the changed fields, compare the steps, and ask whether any of it is controlled. */
    method TouchesControlledContent(current: Version, edit: TC.Edit) returns (controlled: bool)
      ensures controlled == TC.Controlled(current, edit)
    {
      var changed: set<string> := {};
      if edit.title.Some? && Strip(edit.title.value) != current.title { changed := changed + {"title"}; }
      if edit.description.Some? && edit.description != current.description { changed := changed + {"description"}; }
      if edit.preconditions.Some? && edit.preconditions != current.preconditions {
        changed := changed + {"preconditions"};
      }
      var stepsChanged := false;
      if edit.steps.Some? { stepsChanged := StepsDiffer(current.steps, edit.steps.value); }
      assert changed == TC.ChangedFields(current, edit);
      return TC.TouchesControlledContent(changed, stepsChanged);
    }

    /** Fill the working draft, or the fork, from the current version and the edit. */
    method WriteContent(current: Version, target: Version, edit: TC.Edit, forked: bool) returns (row: Version)
      requires !forked ==> target == current
      ensures row == TC.Rewritten(target, TC.NewContent(current, edit))
    {
      row := target;
      row := row.(title := if edit.title.None? then current.title else Strip(edit.title.value));
      row := row.(description := if edit.description.None? then current.description else edit.description);
      row := row.(preconditions := if edit.preconditions.None? then current.preconditions else edit.preconditions);
      if edit.steps.Some? {
        var rows := WriteSteps(edit.steps.value);
        row := row.(steps := rows);
      } else if forked {
        var rows := CopySteps(current.steps);
        row := row.(steps := rows);
      }
    }

    method TransitionVersion(c: Id, target: VersionStatus, expected: nat) returns (r: Result<Id>)
      modifies this
      ensures Meets(old(State()), TC.TransitionVersion(old(State()), c, target, expected), r, State())
    {
      if c !in cases { return Err(NotFound); }
      var tc := cases[c];
      if tc.rev != expected { return Err(Conflict); }
      if tc.current !in versions { return Err(Broken); }
      var current := versions[tc.current];
      if !TC.VersionMove(current.status, target) { return Err(NotAllowed); }
      if target == VersionStatus.InReview && !TC.Reviewable(current) { return Err(Invalid); }

      current := current.(status := target);
      if target == VersionStatus.InReview {
        tc := tc.(lifecycle := Lifecycle.InReview);
      } else if target == VersionStatus.Draft {
        tc := tc.(lifecycle := Lifecycle.Draft);
      } else {
        if tc.approved.Some? && tc.approved.value != tc.current && tc.approved.value in versions {
          versions := versions[tc.approved.value := versions[tc.approved.value].(status := Superseded)];
        }
        tc := tc.(approved := Some(tc.current));
        current := current.(locked := true);
        tc := tc.(lifecycle := Lifecycle.Approved);
      }
      versions := versions[tc.current := current];
      cases := cases[c := tc.(rev := tc.rev + 1)];
      return Ok(c);
    }

    method TransitionLifecycle(c: Id, target: Lifecycle, expected: nat) returns (r: Result<Id>)
      modifies this
      ensures Meets(old(State()), TC.TransitionLifecycle(old(State()), c, target, expected), r, State())
    {
      if c !in cases { return Err(NotFound); }
      var tc := cases[c];
      if tc.rev != expected { return Err(Conflict); }
      if !TC.LifecycleMove(tc.lifecycle, target) { return Err(NotAllowed); }
      if target == Lifecycle.Active && tc.approved == None { return Err(NotAllowed); }
      tc := tc.(lifecycle := target);
      tc := tc.(rev := tc.rev + 1);
      cases := cases[c := tc];
      return Ok(c);
    }

    // ---------------------------------------------------------------- plans and cycles

    method DeletePlan(p: Id) returns (r: Result<Id>)
      modifies this
      ensures Meets(old(State()), PL.DeletePlan(old(State()), p), r, State())
    {
      if p !in plans { return Err(NotFound); }
      var owned := set c | c in cycles && cycles[c].context.plan == p;
      if |owned| != 0 {
        var c :| c in owned;
        assert PL.HasCycle(State(), p);
        return Err(Invalid);
      }
      forall c | c in cycles ensures cycles[c].context.plan != p {
        assert c !in owned;
      }
      plans := plans - {p};
      return Ok(p);
    }

    method CreateCycle(p: Id, release: Option<Id>, environment: string, build: string) returns (r: Result<Id>)
      modifies this
      ensures Meets(old(State()), PL.CreateCycle(old(State()), p, release, environment, build), r, State())
    {
      if p !in plans { return Err(NotFound); }
      var plan := plans[p];
      if release.Some? && (release.value !in releases || releases[release.value] != plan.project) {
        return Err(Invalid);
      }
      var id := NewId();
      var chosen := release;
      if chosen.None? { chosen := plan.release; }
      var env := Strip(environment);
      if env == "" { env := "default"; }
      var tag := Strip(build);
      if tag == "" { tag := "unspecified"; }
      var row := Cycle(plan.project, CycleStatus.Draft, RunContext(p, chosen, env, tag), 1);
      cycles := cycles[id := row];
      return Ok(id);
    }

    method CloneCycle(source: Id, environment: string, build: string) returns (r: Result<Id>, ghost rows: seq<Id>)
      modifies this
      ensures Enumerates(rows, PL.LiveTests(old(State()), source))
      ensures Meets(old(State()), PL.CloneCycle(old(State()), source, environment, build, rows), r, State())
    {
      hide Enumerates, StripOr, PL.ClonedTests, PL.LiveTests;
      if source !in cycles {
        rows := ListedLive(State(), source);
        return Err(NotFound), rows;
      }
      var src := cycles[source];
      var env := StripOr(if environment == "" then src.context.environment else environment, "default");
      var bld := StripOr(if build == "" then src.context.build else build, "unspecified");
      var cycle := NewId();
      cycles := cycles[cycle := Cycle(src.project, CycleStatus.Draft,
                                      src.context.(environment := env, build := bld), 1)];
      SameLive(old(State()), State(), source);
      rows := CloneTests(source, cycle, src.project);
      return Ok(cycle), rows;
    }

    method CloneTests(source: Id, cycle: Id, project: Id) returns (ghost rows: seq<Id>)
      requires nextId == cycle + 1
      modifies this`tests, this`nextId
      ensures Enumerates(rows, PL.LiveTests(old(State()), source))
      ensures forall t :: t in rows ==> t in old(tests)
      ensures nextId == cycle + 1 + |rows|
      ensures tests == old(tests) + PL.ClonedTests(old(tests), cycle, project, rows)
    {
      ghost var live := PL.LiveTests(State(), source);
      ListedNone(live);
      hide Enumerates, PL.ClonedTests;
      ClonedNone(tests, cycle, project);
      var before := tests;
      var todo := set t | t in tests && PL.LiveIn(tests[t], source);
      rows := [];
      assert todo == live && live - todo == {};
      while todo != {}
        invariant todo <= live && nextId == cycle + 1 + |rows|
        invariant Enumerates(rows, live - todo)
        invariant forall t :: t in rows ==> t in before
        invariant tests == before + PL.ClonedTests(before, cycle, project, rows)
      {
        var t :| t in todo;
        var id := NewId();
        tests := tests[id := PL.NewTest(cycle, project, before[t].caseId)];
        ListedOneMore(rows, t, live - todo);
        ClonedOneMore(before, cycle, project, rows, t);
        assert live - todo + {t} == live - (todo - {t});
        rows := rows + [t];
        todo := todo - {t};
      }
      assert live - todo == live;
    }

    method AddCycleTests(cycle: Id, caseIds: seq<Id>) returns (r: Result<Id>)
      modifies this
      ensures Meets(old(State()), PL.AddCycleTests(old(State()), cycle, caseIds), r, State())
    {
      if cycle !in cycles { return Err(NotFound); }
      var cyc := cycles[cycle];
      if !PL.Open(cyc.status) { return Err(NotAllowed); }
      ghost var db := State();
      var savedTests, savedNextId := tests, nextId;
      var i := 0;
      while i < |caseIds|
        invariant 0 <= i <= |caseIds|
        invariant State() == db.(tests := tests, nextId := nextId)
        invariant PL.AddEach(db, cycle, caseIds) == PL.AddEach(State(), cycle, caseIds[i..])
      {
        ghost var now := State();
        var c := caseIds[i];
        assert caseIds[i..][0] == c && caseIds[i..][1..] == caseIds[i + 1..];
        if c !in cases || cases[c].project != cyc.project {
          tests, nextId := savedTests, savedNextId;
          return Err(Invalid);
        }
        if exists t :: t in tests && PL.LiveIn(tests[t], cycle) && tests[t].caseId == c {
          assert PL.HasCase(now, cycle, c);
          tests, nextId := savedTests, savedNextId;
          return Err(Duplicate);
        }
        assert !PL.HasCase(now, cycle, c);
        var ct := PL.NewTest(cycle, cyc.project, c);
        var id := NewId();
        if PL.Running(cyc.status) {
          if cases[c].approved == None {
            tests, nextId := savedTests, savedNextId;
            return Err(Invalid);
          }
          if cases[c].approved.value !in versions {
            tests, nextId := savedTests, savedNextId;
            return Err(Broken);
          }
          ct := SnapshotCycleTest(ct);
        }
        tests := tests[id := ct];
        i := i + 1;
      }
      return Ok(cycle);
    }

    /** _snapshot_cycle_test: point at the approved version, drop the old steps, copy its steps. */
    method SnapshotCycleTest(ct: CycleTest) returns (row: CycleTest)
      requires ct.caseId in cases && cases[ct.caseId].approved.Some? && cases[ct.caseId].approved.value in versions
      ensures row == PL.Snapshot(State(), ct)
    {
      var v := cases[ct.caseId].approved.value;
      row := ct.(versionId := Some(v), steps := []);
      var copies := CopySteps(versions[v].steps);
      row := row.(steps := copies);
    }

    method TransitionCycle(cycle: Id, target: CycleStatus, expected: nat, reasonGiven: bool) returns (r: Result<Id>)
      modifies this
      ensures Meets(old(State()), PL.TransitionCycle(old(State()), cycle, target, expected, reasonGiven), r, State())
    {
      if cycle !in cycles { return Err(NotFound); }
      var cyc := cycles[cycle];
      if cyc.rev != expected { return Err(Conflict); }
      if !PL.CycleMove(cyc.status, target) { return Err(NotAllowed); }
      var live := set t | t in tests && PL.LiveIn(tests[t], cycle);
      assert live == PL.LiveTests(State(), cycle);
      var pending := tests;
      if target == CycleStatus.Active {
        if live == {} { return Err(NotAllowed); }
        var error;
        pending, error := SnapshotLive(cycle, live);
        if error.Some? { return Err(error.value); }
      }
      if target == CycleStatus.Completed
         && exists a :: a in attempts && attempts[a].cycleId == cycle && attempts[a].status == InProgress
      {
        assert PL.CycleHasOpenAttempt(State(), cycle);
        return Err(NotAllowed);
      }
      if target == CycleStatus.Reopened && !reasonGiven { return Err(Invalid); }
      tests := pending;
      cycles := cycles[cycle := cyc.(status := target, rev := cyc.rev + 1)];
      return Ok(cycle);
    }

    /** The activation loop: snapshot what can be, collect what cannot. */
    method SnapshotLive(cycle: Id, live: set<Id>) returns (pending: map<Id, CycleTest>, error: Option<Error>)
      requires live == PL.LiveTests(State(), cycle)
      ensures error == (if PL.AnySnapshotBroken(State(), cycle) then Some(Broken)
                        else if !PL.AllCanSnapshot(State(), cycle) then Some(Invalid) else None)
      ensures error.None? ==> pending == PL.SnapshotAll(State(), cycle)
    {
      pending := tests;
      var todo := live;
      var missing: set<Id> := {};
      while todo != {}
        invariant todo <= live && missing <= live - todo && pending.Keys == tests.Keys
        invariant forall t :: t in live && t !in todo ==> !PL.SnapshotBroken(State(), tests[t])
        invariant forall t :: t in live && t !in todo ==> (t in missing <==> !PL.CanSnapshot(State(), tests[t]))
        invariant forall t :: t in tests ==>
                    pending[t] == (if t in live - todo - missing then PL.Snapshot(State(), tests[t]) else tests[t])
      {
        var t :| t in todo;
        var ct := tests[t];
        if ct.caseId !in cases { return pending, Some(Broken); }
        if cases[ct.caseId].approved == None {
          missing := missing + {t};
        } else {
          if cases[ct.caseId].approved.value !in versions {
            assert PL.SnapshotBroken(State(), ct);
            return pending, Some(Broken);
          }
          var row := SnapshotCycleTest(ct);
          pending := pending[t := row];
        }
        todo := todo - {t};
      }
      if missing != {} { return pending, Some(Invalid); }
      return pending, None;
    }

    method RemoveCycleTest(t: Id) returns (r: Result<Id>)
      modifies this
      ensures Meets(old(State()), PL.RemoveCycleTest(old(State()), t), r, State())
    {
      if t !in tests || tests[t].removed { return Err(NotFound); }
      var ct := tests[t];
      if ct.cycleId !in cycles { return Err(Broken); }
      if !PL.Open(cycles[ct.cycleId].status) { return Err(NotAllowed); }
      if HasOpenAttempt(attempts, t) { return Err(NotAllowed); }
      ct := ct.(removed := true);
      tests := tests[t := ct];
      return Ok(t);
    }

    method RefreshCycleTestVersion(t: Id) returns (r: Result<Id>)
      modifies this
      ensures Meets(old(State()), PL.RefreshCycleTestVersion(old(State()), t), r, State())
    {
      if t !in tests { return Err(NotFound); }
      if HasAttempt(attempts, t) { return Err(NotAllowed); }
      var ct := tests[t];
      if ct.caseId !in cases { return Err(Broken); }
      if cases[ct.caseId].approved == None { return Err(Invalid); }
      if cases[ct.caseId].approved.value !in versions { return Err(Broken); }
      ct := SnapshotCycleTest(ct);
      tests := tests[t := ct];
      return Ok(t);
    }

    // ---------------------------------------------------------------- attempts

    method StartAttempt(now: Time, t: Id) returns (r: Result<Id>)
      modifies this
      ensures Meets(old(State()), EX.StartAttempt(old(State()), now, t), r, State())
    {
      if t !in tests { return Err(NotFound); }
      var ct := tests[t];
      if ct.cycleId !in cycles { return Err(Broken); }
      var cycle := cycles[ct.cycleId];
      if cycle.status != CycleStatus.Active && cycle.status != CycleStatus.Reopened { return Err(NotAllowed); }
      if ct.versionId == None { return Err(Invalid); }
      if HasOpenAttempt(attempts, t) { return Err(NotAllowed); }
      var a := NewId();
      var marks := CopyToAttempt(ct.steps);
      attempts := attempts[a := Attempt(t, ct.cycleId, ct.project, ct.versionId.value, cycle.context,
                                        marks, InProgress, None, now, None, false, [])];
      ct := ct.(retest := false);
      tests := tests[t := ct];
      return Ok(a);
    }

    method SetStepResult(a: Id, index: nat, result: Option<StepResult>) returns (r: Result<Id>)
      modifies this
      ensures Meets(old(State()), EX.SetStepResult(old(State()), a, index, result), r, State())
    {
      if a !in attempts { return Err(NotFound); }
      var attempt := attempts[a];
      if attempt.testId !in tests { return Err(NotFound); }
      if attempt.status != InProgress { return Err(NotAllowed); }
      if result == None { return Err(Invalid); }
      var i := 0;
      while i < |attempt.steps| && attempt.steps[i].text.index != index
        invariant 0 <= i <= |attempt.steps|
        invariant forall k :: 0 <= k < i ==> attempt.steps[k].text.index != index
      {
        i := i + 1;
      }
      assert i == EX.StepAt(attempt.steps, index);
      if i == |attempt.steps| { return Err(NotFound); }
      attempts := attempts[a := attempt.(steps := attempt.steps[i := attempt.steps[i].(result := result.value)])];
      return Ok(a);
    }

    method CompleteAttempt(now: Time, a: Id, overrideResult: Option<Verdict>, reasonGiven: bool)
      returns (r: Result<Id>)
      modifies this
      ensures Meets(old(State()), EX.CompleteAttempt(old(State()), now, a, overrideResult, reasonGiven), r, State())
    {
      if a !in attempts { return Err(NotFound); }
      var attempt := attempts[a];
      if attempt.testId !in tests { return Err(NotFound); }
      if attempt.status != InProgress { return Err(NotAllowed); }
      var derived := EX.DeriveOverallResult(attempt.steps);
      var final := derived;
      if overrideResult.Some? {
        if !Terminal(overrideResult.value) { return Err(Invalid); }
        if !reasonGiven { return Err(Invalid); }
        final := overrideResult.value;
        attempt := attempt.(overridden := true);
      } else if derived == InProgress {
        return Err(Invalid);
      }
      attempt := attempt.(status := final);
      attempt := attempt.(overall := Some(final));
      attempt := attempt.(ended := Some(now));
      attempts := attempts[a := attempt];
      return Ok(a);
    }

    method AbortAttempt(now: Time, a: Id, reasonGiven: bool) returns (r: Result<Id>)
      modifies this
      ensures Meets(old(State()), EX.AbortAttempt(old(State()), now, a, reasonGiven), r, State())
    {
      if a !in attempts { return Err(NotFound); }
      var attempt := attempts[a];
      if attempt.testId !in tests { return Err(NotFound); }
      if attempt.status != InProgress { return Err(NotAllowed); }
      if !reasonGiven { return Err(Invalid); }
      attempt := attempt.(status := Aborted);
      attempt := attempt.(overall := Some(Aborted));
      attempt := attempt.(ended := Some(now));
      attempts := attempts[a := attempt];
      return Ok(a);
    }

    method RequestRetest(t: Id) returns (r: Result<Id>)
      modifies this
      ensures Meets(old(State()), EX.RequestRetest(old(State()), t), r, State())
    {
      if t !in tests { return Err(NotFound); }
      if !HasFinishedAttempt(attempts, t) { return Err(NotAllowed); }
      tests := tests[t := tests[t].(retest := true)];
      return Ok(t);
    }

    method CorrectAttempt(now: Time, a: Id, field: string, newValue: Verdict, reasonGiven: bool)
      returns (r: Result<Id>)
      modifies this
      ensures Meets(old(State()), EX.CorrectAttempt(old(State()), now, a, field, newValue, reasonGiven), r, State())
    {
      if a !in attempts { return Err(NotFound); }
      var attempt := attempts[a];
      if !Terminal(attempt.status) { return Err(NotAllowed); }
      if field != "overall_result" { return Err(Invalid); }
      if !Terminal(newValue) { return Err(Invalid); }
      if !reasonGiven { return Err(Invalid); }
      var old_ := attempt.overall;
      attempts := attempts[a := attempt.(corrections := attempt.corrections + [Correction(old_, newValue, now)])];
      return Ok(a);
    }
  }

  // ------------------------------------------------------------------ listing rows

  /** Some order of the rows. */
  ghost function Listed(s: set<Id>): (rows: seq<Id>)
    ensures Enumerates(rows, s)
  {
    if s == {} then []
    else
      var t :| t in s;
      ListedOneMore(Listed(s - {t}), t, s - {t});
      assert s == s - {t} + {t};
      Listed(s - {t}) + [t]
  }

  ghost function ListedLive(db: Db, cycle: Id): (rows: seq<Id>)
    ensures Enumerates(rows, PL.LiveTests(db, cycle))
    ensures forall t :: t in rows ==> t in db.tests
  {
    Listed(PL.LiveTests(db, cycle))
  }

  lemma SameLive(before: Db, after: Db, cycle: Id)
    requires after.tests == before.tests
    ensures PL.LiveTests(after, cycle) == PL.LiveTests(before, cycle)
  {}

  lemma ListedNone(s: set<Id>)
    ensures Enumerates([], s - s)
  {}

  lemma ClonedNone(tests: map<Id, CycleTest>, cycle: Id, project: Id)
    ensures tests + PL.ClonedTests(tests, cycle, project, []) == tests
  {}

  lemma ListedOneMore(rows: seq<Id>, t: Id, s: set<Id>)
    requires Enumerates(rows, s) && t !in s
    ensures Enumerates(rows + [t], s + {t})
  {}

  lemma ClonedOneMore(tests: map<Id, CycleTest>, cycle: Id, project: Id, rows: seq<Id>, t: Id)
    requires t in tests && forall r :: r in rows ==> r in tests
    ensures PL.ClonedTests(tests, cycle, project, rows + [t])
            == PL.ClonedTests(tests, cycle, project, rows)[
                 cycle + 1 + |rows| := PL.NewTest(cycle, project, tests[t].caseId)]
  {}
}
