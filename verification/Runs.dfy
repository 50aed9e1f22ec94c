/** What holds in every reachable state, and from any state of a run to every later one. */
module Runs {
  import opened Common
  import opened Tables
  import opened Evidence
  import opened Preservation
  import TC = TestCases
  import PL = Planning
  import EX = Execution

  lemma {:induction false} RunKeeps(db: Db, calls: History)
    requires Inv(db)
    ensures Inv(Run(db, calls)) && Grows(db, Run(db, calls))
    decreases |calls|
  {
    hide Inv, Grows, Apply;
    if calls == [] {
      GrowsReflexive(db);
    } else {
      var mid := Run(db, calls[..|calls| - 1]);
      var last := calls[|calls| - 1];
      RunKeeps(db, calls[..|calls| - 1]);
      ApplyKeeps(mid, last.0, last.1);
      GrowsTransitive(db, mid, Apply(mid, last.0, last.1));
    }
  }

  lemma {:induction false} RunAppend(db: Db, a: History, b: History)
    ensures Run(db, a + b) == Run(Run(db, a), b)
    decreases |b|
  {
    if b == [] {
      assert a + b == a;
    } else {
      assert (a + b)[..|a + b| - 1] == a + b[..|b| - 1];
      RunAppend(db, a, b[..|b| - 1]);
    }
  }

  ghost function Reached(projects: set<Id>, calls: History): Db {
    Run(EmptyDb(projects), calls)
  }

  lemma EmptyInv(projects: set<Id>)
    ensures Inv(EmptyDb(projects))
  {}

  lemma ReachedInv(projects: set<Id>, calls: History)
    ensures Inv(Reached(projects, calls))
  {
    hide Inv, Grows, Run;
    EmptyInv(projects);
    RunKeeps(EmptyDb(projects), calls);
  }

  lemma ReachedGrows(projects: set<Id>, calls: History, more: History)
    ensures Grows(Reached(projects, calls), Reached(projects, calls + more))
    ensures Inv(Reached(projects, calls)) && Inv(Reached(projects, calls + more))
  {
    hide Inv, Grows;
    ReachedInv(projects, calls);
    RunAppend(EmptyDb(projects), calls, more);
    RunKeeps(Reached(projects, calls), more);
  }

  // ------------------------------------------------------------------ evidence

  /** In every reachable state a snapshot is the text of its version, and an attempt is
      the text of its test's snapshot; that version is a locked one of the test's own case. */
  lemma EvidenceChain(projects: set<Id>, calls: History)
    ensures var db := Reached(projects, calls);
      && (forall t :: t in db.tests && db.tests[t].versionId.Some? ==>
            && db.tests[t].versionId.value in db.versions
            && var v := db.versions[db.tests[t].versionId.value];
               v.caseId == db.tests[t].caseId && v.locked && v.steps == db.tests[t].steps)
      && (forall a :: a in db.attempts ==>
            var attempt := db.attempts[a];
            && attempt.testId in db.tests && attempt.versionId in db.versions
            && db.tests[attempt.testId].versionId == Some(attempt.versionId)
            && Texts(attempt.steps) == db.tests[attempt.testId].steps == db.versions[attempt.versionId].steps)
  {
    ReachedInv(projects, calls);
    var db := Reached(projects, calls);
    forall t | t in db.tests ensures TestOk(db.cases, db.versions, db.cycles, db.tests[t]) {}
    forall a | a in db.attempts ensures AttemptOk(db.cycles, db.tests, db.attempts[a]) {}
    hide RepositoryOk, HistoriesOk, LiveOnce, OneOpen, RetestsOk, CyclesOk;
  }

  /** An attempt recorded at one point of a run still quotes, at every later point, the text
      its version had at the first: neither side has moved. */
  lemma EvidenceNeverDrifts(projects: set<Id>, calls: History, more: History, a: Id)
    requires a in Reached(projects, calls).attempts
    ensures var before, after := Reached(projects, calls), Reached(projects, calls + more);
      && var v := before.attempts[a].versionId;
      && v in before.versions && v in after.versions && a in after.attempts
      && after.attempts[a].versionId == v
      && ContentOf(after.versions[v]) == ContentOf(before.versions[v])
      && Texts(after.attempts[a].steps) == Texts(before.attempts[a].steps) == before.versions[v].steps
      && after.attempts[a].context == before.attempts[a].context
  {
    ReachedGrows(projects, calls, more);
    EvidenceChain(projects, calls);
    hide Inv, Reached;
    EvidenceKeptByGrowth(Reached(projects, calls), Reached(projects, calls + more), a);
  }

  lemma EvidenceKeptByGrowth(before: Db, after: Db, a: Id)
    requires Grows(before, after) && a in before.attempts && before.attempts[a].versionId in before.versions
    requires before.versions[before.attempts[a].versionId].locked
    ensures a in after.attempts && AttemptKept(before.attempts[a], after.attempts[a])
    ensures var v := before.attempts[a].versionId;
      v in after.versions && ContentOf(after.versions[v]) == ContentOf(before.versions[v])
  {
    hide CasesKept, CyclesKept, TestsKept, ReleasesKept, OldContentKept;
  }

  /** A finished attempt never changes again, except that corrections are appended. */
  lemma FinishedAttemptsAreImmutable(projects: set<Id>, calls: History, more: History, a: Id)
    requires a in Reached(projects, calls).attempts && Terminal(Reached(projects, calls).attempts[a].status)
    ensures a in Reached(projects, calls + more).attempts
    ensures var before, after := Reached(projects, calls).attempts[a], Reached(projects, calls + more).attempts[a];
      after == before.(corrections := after.corrections) && before.corrections <= after.corrections
  {
    ReachedGrows(projects, calls, more);
    hide Reached, Inv;
    assert AttemptKept(Reached(projects, calls).attempts[a], Reached(projects, calls + more).attempts[a]);
  }

  // ------------------------------------------------------------------ approved content

  /** Once approved, a version keeps its content in every later state, and stays locked. */
  lemma ApprovedContentIsFrozen(projects: set<Id>, calls: History, more: History, v: Id)
    requires v in Reached(projects, calls).versions && Locking(Reached(projects, calls).versions[v].status)
    ensures v in Reached(projects, calls + more).versions
    ensures var before, after := Reached(projects, calls).versions[v], Reached(projects, calls + more).versions[v];
      ContentOf(after) == ContentOf(before) && Locking(after.status) && after.locked
  {
    ReachedGrows(projects, calls, more);
    var before, after := Reached(projects, calls), Reached(projects, calls + more);
    assert VersionOk(before.cases, before.versions, v);
    assert VersionsKept(before.versions, after.versions);
    assert VersionOk(after.cases, after.versions, v);
    hide Inv, Grows, Reached, VersionsKept;
  }

  /** content_locked marks the approved and superseded versions; at most one version of a
      case is approved, and approved_version_id names it. */
  lemma ApprovalPointer(projects: set<Id>, calls: History)
    ensures var db := Reached(projects, calls);
      && (forall v :: v in db.versions ==>
            && db.versions[v].caseId in db.cases
            && (db.versions[v].locked <==> Locking(db.versions[v].status))
            && (db.versions[v].status.Approved? <==> db.cases[db.versions[v].caseId].approved == Some(v)))
  {
    ReachedInv(projects, calls);
    var db := Reached(projects, calls);
    forall v | v in db.versions
      ensures db.versions[v].caseId in db.cases
      ensures db.versions[v].locked <==> Locking(db.versions[v].status)
      ensures db.versions[v].status.Approved? <==> db.cases[db.versions[v].caseId].approved == Some(v)
    {
      assert VersionOk(db.cases, db.versions, v);
      assert CaseOk(db.cases, db.versions, db.versions[v].caseId);
    }
    hide Inv, Reached;
  }

  // ------------------------------------------------------------------ version history

  /** The version numbers of a case are exactly 1..n, the current version is n, only it can be
      a draft, its title is the case's, and every version's steps are numbered 1..k. */
  lemma VersionHistoryShape(projects: set<Id>, calls: History, c: Id)
    requires c in Reached(projects, calls).cases
    ensures var db := Reached(projects, calls);
      && var tc := db.cases[c];
      && tc.current in db.versions
      && var n := db.versions[tc.current].number;
      && (forall k :: k in TC.NumbersOf(db.versions, c) <==> 1 <= k <= n)
      && (forall v, w :: v in db.versions && w in db.versions && SameNumber(db.versions[v], db.versions[w], c) ==>
            v == w)
      && tc.title == db.versions[tc.current].title
      && (forall v :: v in db.versions && db.versions[v].caseId == c ==>
            && TC.Numbered(db.versions[v].steps)
            && (db.versions[v].status.Draft? ==> v == tc.current))
  {
    ReachedInv(projects, calls);
    var db := Reached(projects, calls);
    hide Reached, OneOpen, LiveOnce, TestsOk, AttemptsOk, RetestsOk, CyclesOk;
    ShapeOf(db.cases, db.versions, c);
    NumbersAre(db.versions, c, db.cases[c].current);
  }

  lemma ShapeOf(cases: map<Id, Case>, versions: map<Id, Version>, c: Id)
    requires RepositoryOk(cases, versions) && c in cases
    ensures cases[c].current in versions && cases[c].title == versions[cases[c].current].title
    ensures forall v :: v in versions && versions[v].caseId == c ==>
              && TC.Numbered(versions[v].steps)
              && (versions[v].status.Draft? ==> v == cases[c].current)
  {}

  lemma NumbersAre(versions: map<Id, Version>, c: Id, current: Id)
    requires current in versions && HistoryOk(versions, c, current)
    ensures forall k :: k in TC.NumbersOf(versions, c) <==> 1 <= k <= versions[current].number
  {
    forall k: nat | 1 <= k <= versions[current].number ensures k in TC.NumbersOf(versions, c) {
      assert HasNumber(versions, c, k);
    }
  }

  /** Sending the same edit again only bumps the row version: no content changes, no fork. */
  lemma RepeatedUpdateIsIdle(
    projects: set<Id>, calls: History, c: Id, expected: nat, again: nat, edit: TC.Edit, once: Db)
    requires TC.UpdateTestCase(Reached(projects, calls), c, expected, edit) == Ok(once)
    ensures c in once.cases
    ensures var tc := once.cases[c];
      TC.UpdateTestCase(once, c, again, edit) ==
        if again == tc.rev then Ok(once.(cases := once.cases[c := tc.(rev := tc.rev + 1)])) else Err(Conflict)
  {
    var db := Reached(projects, calls);
    ReachedInv(projects, calls);
    assert CaseOk(db.cases, db.versions, c) && VersionOk(db.cases, db.versions, db.cases[c].current);
    hide Inv, Reached;
    UpdatedContent(db, c, expected, edit, once);
    hide CaseOk, VersionOk;
    IdleUpdate(once, c, again, edit);
    hide TC.UpdateTestCase;
  }

  lemma IdleUpdate(db: Db, c: Id, expected: nat, edit: TC.Edit)
    requires c in db.cases && !db.cases[c].lifecycle.Archived? && db.cases[c].current in db.versions
    requires !TC.Controlled(db.versions[db.cases[c].current], edit)
    ensures var tc := db.cases[c];
      TC.UpdateTestCase(db, c, expected, edit) ==
        if expected == tc.rev then Ok(db.(cases := db.cases[c := tc.(rev := tc.rev + 1)])) else Err(Conflict)
  {}

  /** After an update the current version already has the content the edit asks for. */
  lemma UpdatedContent(db: Db, c: Id, expected: nat, edit: TC.Edit, once: Db)
    requires TC.UpdateTestCase(db, c, expected, edit) == Ok(once)
    requires TC.Numbered(db.versions[db.cases[c].current].steps)
    ensures c in once.cases && once.cases[c].current in once.versions
    ensures !once.cases[c].lifecycle.Archived?
    ensures !TC.Controlled(once.versions[once.cases[c].current], edit)
  {
    hide TC.Controlled, TC.NewContent, TC.Numbered;
    var current := db.versions[db.cases[c].current];
    NewContentNumbered(current, edit);
    TC.ControlledExactly(current, edit);
    WhatUpdateLeaves(db, c, expected, edit, once);
    hide TC.UpdateTestCase;
    var after := once.versions[once.cases[c].current];
    TwiceIsOnce(current, after, edit);
    TC.ControlledExactly(after, edit);
  }

  lemma WhatUpdateLeaves(db: Db, c: Id, expected: nat, edit: TC.Edit, once: Db)
    requires TC.UpdateTestCase(db, c, expected, edit) == Ok(once)
    ensures c in once.cases && once.cases[c].current in once.versions && !once.cases[c].lifecycle.Archived?
    ensures var current, after := db.versions[db.cases[c].current], once.versions[once.cases[c].current];
      if TC.Controlled(current, edit) then ContentOf(after) == TC.NewContent(current, edit) else after == current
  {
    hide TC.Controlled, TC.NewContent, TC.EditDraft, TC.Fork;
    var current := db.versions[db.cases[c].current];
    if TC.Controlled(current, edit) {
      if current.status.Draft? {
        EditedContent(db, c, TC.NewContent(current, edit));
      } else {
        ForkedContent(db, c, TC.NewContent(current, edit));
      }
    }
  }

  lemma EditedContent(db: Db, c: Id, content: Content)
    requires c in db.cases && db.cases[c].current in db.versions
    ensures var once := TC.EditDraft(db, c, content);
      && c in once.cases && once.cases[c].lifecycle == db.cases[c].lifecycle && once.cases[c].current in once.versions
      && ContentOf(once.versions[once.cases[c].current]) == content
  {}

  lemma ForkedContent(db: Db, c: Id, content: Content)
    requires c in db.cases
    ensures var once := TC.Fork(db, c, content);
      && c in once.cases && once.cases[c].lifecycle == db.cases[c].lifecycle && once.cases[c].current in once.versions
      && ContentOf(once.versions[once.cases[c].current]) == content
  {
    hide TC.NextVersionNumber;
  }

  lemma TwiceIsOnce(before: Version, after: Version, edit: TC.Edit)
    requires ContentOf(after) == TC.NewContent(before, edit)
    ensures TC.NewContent(after, edit) == ContentOf(after)
  {}

  // ------------------------------------------------------------------ which versions can still change

  /** A version's content can change in some later state exactly while it is current and
      not locked.  Being in review does not protect it. */
  lemma RewritableExactly(projects: set<Id>, calls: History, v: Id)
    requires v in Reached(projects, calls).versions
    ensures var db := Reached(projects, calls);
      Rewritable(db, v) <==>
        exists more: History ::
          v in Reached(projects, calls + more).versions
          && ContentOf(Reached(projects, calls + more).versions[v]) != ContentOf(db.versions[v])
  {
    var db := Reached(projects, calls);
    if Rewritable(db, v) {
      ReachedInv(projects, calls);
      var more := Rewriting(db, v);
      RunAppend(EmptyDb(projects), calls, more);
      RewritingWorks(db, v);
      assert Reached(projects, calls + more) == Run(db, more);
    } else {
      forall more: History ensures v in Reached(projects, calls + more).versions
      ensures ContentOf(Reached(projects, calls + more).versions[v]) == ContentOf(db.versions[v]) {
        ReachedGrows(projects, calls, more);
        assert OldContentKept(db, Reached(projects, calls + more));
        hide Inv, Grows, Reached;
      }
    }
  }

  /** Three calls that rewrite a current, unlocked version: request changes if it is in review,
      restore the case if it is archived, edit the draft. */
  ghost function Rewriting(db: Db, v: Id): History
    requires v in db.versions && Rewritable(db, v)
  {
    var c := db.versions[v].caseId;
    var rev := db.cases[c].rev;
    (if !db.versions[v].status.Draft? then [(0, Call.TransitionVersion(c, VersionStatus.Draft, rev))]
     else if db.cases[c].lifecycle.Archived? then [(0, Call.TransitionLifecycle(c, Lifecycle.Draft, rev))]
     else [])
    + [(0, LastCall(db, v))]
  }

  ghost function LastCall(db: Db, v: Id): Call
    requires v in db.versions && Rewritable(db, v)
  {
    var c := db.versions[v].caseId;
    Call.UpdateTestCase(c, ReadyToEdit(db, v).cases[c].rev, LongerEdit(db.versions[v].description))
  }

  function LongerEdit(text: Option<string>): TC.Edit {
    TC.Edit(None, Some(if text.None? then "x" else text.value + "x"), None, None)
  }

  lemma RewritingWorks(db: Db, v: Id)
    requires Inv(db) && v in db.versions && Rewritable(db, v)
    ensures var after := Run(db, Rewriting(db, v));
      v in after.versions && ContentOf(after.versions[v]) != ContentOf(db.versions[v])
  {
    assert VersionOk(db.cases, db.versions, v);
    hide Inv;
    RewritingRun(db, v);
    hide VersionOk;
    LastEdit(db, v, ReadyToEdit(db, v));
  }

  lemma LastEdit(db: Db, v: Id, ready: Db)
    requires v in db.versions && Rewritable(db, v) && ready == ReadyToEdit(db, v) && v in ready.versions
    requires ready.versions[v] == db.versions[v].(status := VersionStatus.Draft) && TC.Numbered(db.versions[v].steps)
    ensures var after := Apply(ready, 0, LastCall(db, v));
      && v in after.versions && ContentOf(after.versions[v]) != ContentOf(db.versions[v])
  {
    hide Apply, TC.Controlled, TC.NewContent, TC.Numbered, TC.UpdateTestCase;
    var c, edit := db.versions[v].caseId, LongerEdit(db.versions[v].description);
    ReadyCase(db, v);
    hide ReadyToEdit, Rewritable;
    LongerIsControlled(ready.versions[v], edit);
    DraftIsEdited(ready, c, edit);
    EditApplied(ready, c, ready.cases[c].rev, edit);
  }

  lemma ReadyCase(db: Db, v: Id)
    requires v in db.versions && Rewritable(db, v)
    ensures var c, ready := db.versions[v].caseId, ReadyToEdit(db, v);
      c in ready.cases && ready.cases[c].current == v && !ready.cases[c].lifecycle.Archived?
  {}

  lemma EditApplied(db: Db, c: Id, expected: nat, edit: TC.Edit)
    requires TC.UpdateTestCase(db, c, expected, edit).Ok?
    ensures Apply(db, 0, Call.UpdateTestCase(c, expected, edit)) == TC.UpdateTestCase(db, c, expected, edit).value
  {
    hide TC.UpdateTestCase;
  }

  lemma LongerIsControlled(row: Version, edit: TC.Edit)
    requires edit == LongerEdit(row.description) && TC.Numbered(row.steps)
    ensures TC.Controlled(row, edit) && TC.NewContent(row, edit).description != row.description
  {
    assert row.description.Some? ==> |edit.description.value| == |row.description.value| + 1;
    TC.ControlledExactly(row, edit);
    hide TC.Controlled, TC.Numbered;
  }

  lemma DraftIsEdited(db: Db, c: Id, edit: TC.Edit)
    requires c in db.cases && !db.cases[c].lifecycle.Archived? && db.cases[c].current in db.versions
    requires db.versions[db.cases[c].current].status.Draft? && TC.Controlled(db.versions[db.cases[c].current], edit)
    ensures TC.UpdateTestCase(db, c, db.cases[c].rev, edit)
            == Ok(TC.EditDraft(db, c, TC.NewContent(db.versions[db.cases[c].current], edit)))
  {}

  ghost function ReadyToEdit(db: Db, v: Id): Db
    requires v in db.versions && Rewritable(db, v)
  {
    var c := db.versions[v].caseId;
    var tc := db.cases[c];
    if !db.versions[v].status.Draft? then
      db.(versions := db.versions[v := db.versions[v].(status := VersionStatus.Draft)],
          cases := db.cases[c := tc.(lifecycle := Lifecycle.Draft, rev := tc.rev + 1)])
    else if tc.lifecycle.Archived? then
      db.(cases := db.cases[c := tc.(lifecycle := Lifecycle.Draft, rev := tc.rev + 1)])
    else db
  }

  lemma RewritingRun(db: Db, v: Id)
    requires v in db.versions && Rewritable(db, v) && VersionOk(db.cases, db.versions, v)
    ensures var calls, ready := Rewriting(db, v), ReadyToEdit(db, v);
      && Run(db, calls[..|calls| - 1]) == ready
      && v in ready.versions && ready.versions[v] == db.versions[v].(status := VersionStatus.Draft)
  {
    var c := db.versions[v].caseId;
    var tc := db.cases[c];
    var calls := Rewriting(db, v);
    hide Apply, TC.UpdateTestCase, TC.Numbered;
    if !db.versions[v].status.Draft? {
      assert calls[..1] == [(0, Call.TransitionVersion(c, VersionStatus.Draft, tc.rev))];
      BackToDraft(db, v);
    } else if tc.lifecycle.Archived? {
      assert calls[..1] == [(0, Call.TransitionLifecycle(c, Lifecycle.Draft, tc.rev))];
      Restored(db, v);
    } else {
      assert calls[..0] == [];
    }
  }

  lemma BackToDraft(db: Db, v: Id)
    requires v in db.versions && Rewritable(db, v) && VersionOk(db.cases, db.versions, v)
    requires !db.versions[v].status.Draft?
    ensures var c := db.versions[v].caseId;
      Apply(db, 0, Call.TransitionVersion(c, VersionStatus.Draft, db.cases[c].rev)) == ReadyToEdit(db, v)
  {
    hide TC.Numbered;
  }

  lemma Restored(db: Db, v: Id)
    requires v in db.versions && Rewritable(db, v)
    requires db.versions[v].status.Draft? && db.cases[db.versions[v].caseId].lifecycle.Archived?
    ensures var c := db.versions[v].caseId;
      Apply(db, 0, Call.TransitionLifecycle(c, Lifecycle.Draft, db.cases[c].rev)) == ReadyToEdit(db, v)
  {}

  // ------------------------------------------------------------------ cycles, lifecycle, retest

  /** The cycle machine: drafts have no attempts, completed cycles no open one, a test at most
      one open attempt, a case at most one live test a cycle, and every live test of a cycle
      that has been activated is a snapshot. */
  lemma CycleMachine(projects: set<Id>, calls: History)
    ensures var db := Reached(projects, calls);
      && (forall a :: a in db.attempts ==>
            && db.attempts[a].cycleId in db.cycles
            && !db.cycles[db.attempts[a].cycleId].status.Draft?
            && (db.cycles[db.attempts[a].cycleId].status.Completed? ==> Terminal(db.attempts[a].status)))
      && OneOpen(db.attempts)
      && LiveOnce(db.tests)
      && (forall t :: t in db.tests && !db.tests[t].removed ==>
            && db.tests[t].cycleId in db.cycles
            && (MustBeSnapshotted(db.cycles[db.tests[t].cycleId].status) ==> SnapshotOfOwnCase(db, t)))
  {
    ReachedInv(projects, calls);
    var db := Reached(projects, calls);
    hide RepositoryOk, HistoriesOk, LiveOnce, OneOpen, RetestsOk, CyclesOk, Reached;
    forall a | a in db.attempts ensures AttemptOk(db.cycles, db.tests, db.attempts[a]) {}
    forall t | t in db.tests ensures TestOk(db.cases, db.versions, db.cycles, db.tests[t]) {}
  }

  /** The test holds the steps of a locked version of the case it is a test of. */
  ghost predicate SnapshotOfOwnCase(db: Db, t: Id)
    requires t in db.tests
  {
    && db.tests[t].versionId.Some? && db.tests[t].versionId.value in db.versions
    && var v := db.versions[db.tests[t].versionId.value];
       v.caseId == db.tests[t].caseId && v.locked && v.steps == db.tests[t].steps
  }

  /** approved, active and deprecated cases have an approved version, and a retest is only
      ever pending where some attempt has finished. */
  lemma LifecycleAndRetest(projects: set<Id>, calls: History)
    ensures var db := Reached(projects, calls);
      && (forall c :: c in db.cases && NeedsApproval(db.cases[c].lifecycle) ==>
            && db.cases[c].approved.Some? && db.cases[c].approved.value in db.versions
            && db.versions[db.cases[c].approved.value].status.Approved?)
      && (forall t :: t in db.tests && db.tests[t].retest ==> HasFinishedAttempt(db.attempts, t))
  {
    ReachedInv(projects, calls);
    var db := Reached(projects, calls);
    hide HistoriesOk, LiveOnce, OneOpen, CyclesOk, TestsOk, AttemptsOk, Reached, TC.Numbered;
    forall c | c in db.cases ensures CaseOk(db.cases, db.versions, c) {}
  }

  // ------------------------------------------------------------------ internal assertions

  ghost predicate ApprovalsKnown(db: Db) {
    forall c :: c in db.cases ==>
      && db.cases[c].current in db.versions
      && (db.cases[c].approved.Some? ==> db.cases[c].approved.value in db.versions)
  }

  /** Every row points at rows that exist. */
  ghost predicate Linked(db: Db) {
    && ApprovalsKnown(db)
    && (forall t :: t in db.tests ==> db.tests[t].cycleId in db.cycles && db.tests[t].caseId in db.cases)
  }

  lemma InvLinked(db: Db)
    requires RepositoryOk(db.cases, db.versions) && TestsOk(db.cases, db.versions, db.cycles, db.tests)
    ensures Linked(db)
  {}

  /** No internal `assert` of the services fails in a reachable state. */
  lemma NothingBreaks(projects: set<Id>, calls: History, now: Time, call: Call)
    requires call.CloneCycle? ==> Enumerates(call.rows, PL.LiveTests(Reached(projects, calls), call.cycle))
    ensures Perform(Reached(projects, calls), now, call) != Err(Broken)
  {
    var db := Reached(projects, calls);
    hide RepositoryOk, TestsOk, Reached, HistoriesOk, LiveOnce, OneOpen, RetestsOk, CyclesOk, AttemptsOk, Linked,
      Enumerates, PL.LiveTests;
    ReachedInv(projects, calls);
    InvLinked(db);
    if RepositoryCall(call) {
      RepositoryIntact(db, now, call);
    } else if PlanningCall(call) {
      PlanningIntact(db, now, call);
    } else if ExecutionCall(call) {
      ExecutionIntact(db, now, call);
    } else if call.AddCycleTests? {
      AddTestsIntact(db, call.cycle, call.caseIds);
    }
  }

  lemma RepositoryIntact(db: Db, now: Time, call: Call)
    requires Linked(db) && RepositoryCall(call)
    ensures Perform(db, now, call) != Err(Broken)
  {}

  lemma PlanningIntact(db: Db, now: Time, call: Call)
    requires Linked(db) && PlanningCall(call)
    requires call.CloneCycle? ==> Enumerates(call.rows, PL.LiveTests(db, call.cycle))
    ensures Perform(db, now, call) != Err(Broken)
  {}

  lemma ExecutionIntact(db: Db, now: Time, call: Call)
    requires Linked(db) && ExecutionCall(call)
    ensures Perform(db, now, call) != Err(Broken)
  {
    hide EX.DeriveOverallResult;
  }

  lemma AddTestsIntact(db: Db, cycle: Id, caseIds: seq<Id>)
    requires Linked(db)
    ensures PL.AddCycleTests(db, cycle, caseIds) != Err(Broken)
  {
    if cycle in db.cycles { AddNeverBreaks(db, cycle, caseIds); }
    hide PL.AddEach;
  }

  lemma {:induction false} AddNeverBreaks(db: Db, cycle: Id, caseIds: seq<Id>)
    requires ApprovalsKnown(db) && cycle in db.cycles
    ensures PL.AddEach(db, cycle, caseIds) != Err(Broken)
    decreases |caseIds|
  {
    hide PL.HasCase, PL.Snapshot;
    if caseIds == [] {
    } else if PL.AddCycleTest(db, cycle, caseIds[0]).Ok? {
      AddNeverBreaks(PL.AddCycleTest(db, cycle, caseIds[0]).value, cycle, caseIds[1..]);
    }
  }

  // ------------------------------------------------------------------ adding several tests at once

  /** What the loop of add_cycle_tests really asks for. */
  ghost predicate Addable(db: Db, cycle: Id, caseIds: seq<Id>)
    requires cycle in db.cycles
  {
    && NoDuplicates(caseIds)
    && forall c :: c in caseIds ==> AddableCase(db, cycle, c)
  }

  ghost predicate AddableCase(db: Db, cycle: Id, c: Id)
    requires cycle in db.cycles
  {
    && c in db.cases && db.cases[c].project == db.cycles[cycle].project
    && !PL.HasCase(db, cycle, c)
    && (PL.Running(db.cycles[cycle].status) ==> db.cases[c].approved.Some?)
  }

  ghost function AddedRow(db: Db, cycle: Id, c: Id): CycleTest
    requires cycle in db.cycles
  {
    var row := PL.NewTest(cycle, db.cycles[cycle].project, c);
    if PL.Running(db.cycles[cycle].status) then PL.Snapshot(db, row) else row
  }

  /** All or nothing: the call succeeds just when the cases are known, distinct, new to the
      cycle and, in a running cycle, approved; it then adds one row a case, in order, and
      touches nothing else. */
  lemma {:induction false} AddEachExactly(db: Db, cycle: Id, caseIds: seq<Id>)
    requires ApprovalsKnown(db) && Below(db.tests, db.nextId) && cycle in db.cycles
    ensures PL.AddEach(db, cycle, caseIds).Ok? <==> Addable(db, cycle, caseIds)
    ensures PL.AddEach(db, cycle, caseIds).Ok? ==> AddedAll(db, cycle, caseIds, PL.AddEach(db, cycle, caseIds).value)
    decreases |caseIds|
  {
    if caseIds == [] {
    } else {
      var c := caseIds[0];
      assert c in caseIds;
      AddOneExactly(db, cycle, c);
      if AddableCase(db, cycle, c) {
        var mid := PL.AddCycleTest(db, cycle, c).value;
        AddEachExactly(mid, cycle, caseIds[1..]);
        AddableTail(db, cycle, caseIds, mid);
        if PL.AddEach(mid, cycle, caseIds[1..]).Ok? {
          AddedTail(db, cycle, caseIds, mid, PL.AddEach(mid, cycle, caseIds[1..]).value);
        }
      }
    }
    hide PL.AddCycleTest, Addable, AddableCase, ApprovalsKnown, AddedAll, AddedRow;
  }

  ghost predicate AddedAll(db: Db, cycle: Id, caseIds: seq<Id>, next: Db)
    requires cycle in db.cycles
  {
    && next == db.(tests := next.tests, nextId := db.nextId + |caseIds|)
    && (forall t :: t in next.tests <==> t in db.tests || db.nextId <= t < db.nextId + |caseIds|)
    && (forall t :: t in db.tests ==> next.tests[t] == db.tests[t])
    && (forall t :: db.nextId <= t < db.nextId + |caseIds| ==>
          next.tests[t] == AddedRow(db, cycle, caseIds[t - db.nextId]))
  }

  lemma AddOneExactly(db: Db, cycle: Id, c: Id)
    requires ApprovalsKnown(db) && cycle in db.cycles
    ensures PL.AddCycleTest(db, cycle, c).Ok? <==> AddableCase(db, cycle, c)
    ensures PL.AddCycleTest(db, cycle, c).Ok? ==>
              PL.AddCycleTest(db, cycle, c).value ==
                db.(tests := db.tests[db.nextId := AddedRow(db, cycle, c)], nextId := db.nextId + 1)
  {}

  lemma AddedTail(db: Db, cycle: Id, caseIds: seq<Id>, mid: Db, next: Db)
    requires caseIds != [] && cycle in db.cycles && db.nextId !in db.tests
    requires mid == db.(tests := db.tests[db.nextId := AddedRow(db, cycle, caseIds[0])], nextId := db.nextId + 1)
    requires AddedAll(mid, cycle, caseIds[1..], next)
    ensures AddedAll(db, cycle, caseIds, next)
  {
    hide AddedRow;
    forall t | db.nextId <= t < db.nextId + |caseIds|
      ensures next.tests[t] == AddedRow(db, cycle, caseIds[t - db.nextId])
    {
      if t > db.nextId {
        assert caseIds[1..][t - mid.nextId] == caseIds[t - db.nextId];
        SameAddedRow(db, mid, cycle, caseIds[t - db.nextId]);
      }
    }
  }

  lemma SameAddedRow(db: Db, mid: Db, cycle: Id, c: Id)
    requires mid == db.(tests := mid.tests, nextId := mid.nextId) && cycle in db.cycles
    ensures AddedRow(mid, cycle, c) == AddedRow(db, cycle, c)
  {}

  lemma AddableTail(db: Db, cycle: Id, caseIds: seq<Id>, mid: Db)
    requires caseIds != [] && cycle in db.cycles && db.nextId !in db.tests
    requires AddableCase(db, cycle, caseIds[0])
    requires mid == db.(tests := db.tests[db.nextId := AddedRow(db, cycle, caseIds[0])], nextId := db.nextId + 1)
    ensures Addable(db, cycle, caseIds) <==> Addable(mid, cycle, caseIds[1..])
  {
    forall x ensures AddableCase(mid, cycle, x) <==> AddableCase(db, cycle, x) && x != caseIds[0] {
      AddedHasCase(db, cycle, caseIds[0], mid, x);
    }
    hide AddableCase, AddedRow;
    DistinctTail(caseIds);
    hide NoDuplicates;
    assert caseIds == [caseIds[0]] + caseIds[1..];
  }

  lemma AddedHasCase(db: Db, cycle: Id, c: Id, mid: Db, x: Id)
    requires cycle in db.cycles && db.nextId !in db.tests
    requires mid == db.(tests := db.tests[db.nextId := AddedRow(db, cycle, c)], nextId := db.nextId + 1)
    ensures PL.HasCase(mid, cycle, x) <==> PL.HasCase(db, cycle, x) || x == c
  {
    var row := mid.tests[db.nextId];
    assert row.caseId == c && PL.LiveIn(row, cycle);
    if PL.HasCase(db, cycle, x) {
      var t :| t in db.tests && PL.LiveIn(db.tests[t], cycle) && db.tests[t].caseId == x;
      assert mid.tests[t] == db.tests[t];
    }
  }

  lemma DistinctTail(xs: seq<Id>)
    requires xs != []
    ensures NoDuplicates(xs) <==> NoDuplicates(xs[1..]) && xs[0] !in xs[1..]
  {}
}
