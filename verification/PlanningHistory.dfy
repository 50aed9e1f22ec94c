/** What the planning tables say, told from the calls alone: how a cycle moves, where it runs,
    which tests it has and which version each of them holds. */
module PlanningHistory {
  import opened Common
  import opened Tables
  import opened Evidence
  import opened Preservation
  import opened Runs
  import opened Ledger
  import opened ExecutionHistory
  import PL = Planning

  // ------------------------------------------------------------------ which cycles a call touches

  ghost predicate NewCycleCall(call: Call) {
    call.CreateCycle? || call.CloneCycle?
  }

  /** A cycle changes only in a transition, and then its status and row version; a new one is a
      draft. */
  ghost predicate CyclesTouched(db: Db, call: Call, next: Db) {
    && (forall c :: c in db.cycles ==> c in next.cycles)
    && (forall c :: c in db.cycles && !(call.TransitionCycle? && call.cycle == c) ==> next.cycles[c] == db.cycles[c])
    && (call.TransitionCycle? ==>
          && call.cycle in db.cycles
          && call.expected == db.cycles[call.cycle].rev
          && next.cycles[call.cycle] == db.cycles[call.cycle].(status := call.target, rev := call.expected + 1))
    && (forall c :: c in next.cycles && c !in db.cycles ==>
          NewCycleCall(call) && c == db.nextId && next.cycles[c].status.Draft? && next.cycles[c].rev == 1)
    && (NewCycleCall(call) ==> db.nextId in next.cycles)
  }

  lemma CyclesAreTouched(db: Db, now: Time, call: Call, next: Db)
    requires Inv(db) && Perform(db, now, call) == Ok(next)
    ensures CyclesTouched(db, call, next)
  {
    hide Inv, Perform, CyclesTouched;
    if PlanningCall(call) {
      PlanningTouchesCycles(db, now, call, next);
    } else if call.AddCycleTests? {
      AddKeepsCycles(db, now, call, next);
      UntouchedCycles(db, call, next);
    } else {
      OtherTablesStay(db, now, call, next);
      UntouchedCycles(db, call, next);
    }
  }

  lemma UntouchedCycles(db: Db, call: Call, next: Db)
    requires next.cycles == db.cycles && !NewCycleCall(call) && !call.TransitionCycle?
    ensures CyclesTouched(db, call, next)
  {}

  lemma AddKeepsCycles(db: Db, now: Time, call: Call, next: Db)
    requires Inv(db) && call.AddCycleTests? && Perform(db, now, call) == Ok(next)
    ensures next.cycles == db.cycles
  {
    hide HistoriesOk, CyclesOk, TestsOk, LiveOnce, OneOpen, AttemptsOk, RetestsOk;
    AddedOnlyTests(db, now, call, next);
  }

  lemma PlanningTouchesCycles(db: Db, now: Time, call: Call, next: Db)
    requires Inv(db) && PlanningCall(call) && Perform(db, now, call) == Ok(next)
    ensures CyclesTouched(db, call, next)
  {
    hide HistoriesOk, CyclesOk, TestsOk, LiveOnce, OneOpen, AttemptsOk, RetestsOk, RepositoryOk, CyclesTouched,
      PL.CreateCycle, PL.CloneCycle, PL.TransitionCycle, PL.RemoveCycleTest, PL.RefreshCycleTestVersion, Enumerates,
      PL.LiveTests, Below;
    match call
    case CreateCycle(p, release, env, build) => CreateTouchesCycles(db, p, release, env, build, next);
    case CloneCycle(c, env, build, rows) => CloneTouchesCycles(db, c, env, build, rows, next);
    case TransitionCycle(c, target, expected, reason) => TransitionTouchesCycle(db, c, target, expected, reason, next);
    case RemoveCycleTest(t) => RemoveKeepsCycles(db, t, next); UntouchedCycles(db, call, next);
    case RefreshCycleTestVersion(t) => RefreshShape(db, t, next); UntouchedCycles(db, call, next);
  }

  lemma RemoveKeepsCycles(db: Db, t: Id, next: Db)
    requires PL.RemoveCycleTest(db, t) == Ok(next)
    ensures next == db.(tests := next.tests)
  {}

  lemma CreateTouchesCycles(db: Db, p: Id, release: Option<Id>, env: string, build: string, next: Db)
    requires PL.CreateCycle(db, p, release, env, build) == Ok(next) && Below(db.cycles, db.nextId)
    ensures CyclesTouched(db, Call.CreateCycle(p, release, env, build), next)
  {
    hide StripOr;
  }

  lemma CloneTouchesCycles(db: Db, c: Id, env: string, build: string, rows: seq<Id>, next: Db)
    requires Enumerates(rows, PL.LiveTests(db, c)) && PL.CloneCycle(db, c, env, build, rows) == Ok(next)
    requires Below(db.cycles, db.nextId)
    ensures CyclesTouched(db, Call.CloneCycle(c, env, build, rows), next)
  {
    hide StripOr, PL.ClonedTests;
  }

  lemma TransitionTouchesCycle(db: Db, c: Id, target: CycleStatus, expected: nat, reason: bool, next: Db)
    requires PL.TransitionCycle(db, c, target, expected, reason) == Ok(next)
    ensures CyclesTouched(db, Call.TransitionCycle(c, target, expected, reason), next)
  {
    hide PL.SnapshotAll, PL.AllCanSnapshot, PL.AnySnapshotBroken, PL.CycleHasOpenAttempt, PL.LiveTests;
  }

  // ------------------------------------------------------------------ how a cycle moves

  ghost predicate Moved(run: Trail, i: nat, c: Id, s: CycleStatus) {
    Moving(run, i, c) && run.calls[i].1.target == s
  }

  ghost predicate Moving(run: Trail, i: nat, c: Id) {
    run.Went(i) && run.calls[i].1.TransitionCycle? && run.calls[i].1.cycle == c
  }

  /** The last move of c among the first n calls went to s; or there was none. */
  ghost predicate LastMove(run: Trail, n: nat, c: Id, s: CycleStatus) {
    || (exists i :: 0 <= i < n && Moved(run, i, c, s) && forall j, q :: i < j < n ==> !Moved(run, j, c, q))
    || (s.Draft? && NeverMoved(run, n, c))
  }

  ghost predicate NeverMoved(run: Trail, n: nat, c: Id) {
    forall i, q :: 0 <= i < n ==> !Moved(run, i, c, q)
  }

  /** How often c has moved. */
  ghost function Moves(run: Trail, n: nat, c: Id): nat {
    if n == 0 then 0 else Moves(run, n - 1, c) + if Moving(run, n - 1, c) then 1 else 0
  }

  ghost predicate MovesAsCalled(run: Trail, n: nat, c: Id)
    requires n <= |run.calls|
  {
    if c in run.At(n).cycles then
      && LastMove(run, n, c, run.At(n).cycles[c].status) && run.At(n).cycles[c].rev == 1 + Moves(run, n, c)
    else NeverMoved(run, n, c) && Moves(run, n, c) == 0
  }

  lemma MoveStep(run: Trail, m: nat, c: Id, s: CycleStatus)
    ensures Moved(run, m, c, s) ==> LastMove(run, m + 1, c, s)
    ensures LastMove(run, m, c, s) && (forall q :: !Moved(run, m, c, q)) ==> LastMove(run, m + 1, c, s)
  {
    hide Moved;
    if i :| 0 <= i < m && Moved(run, i, c, s) && forall j, q :: i < j < m ==> !Moved(run, j, c, q) {
      assert (forall q :: !Moved(run, m, c, q)) ==> forall j, q :: i < j < m + 1 ==> !Moved(run, j, c, q);
    }
  }

  /** A cycle is where its last move took it, a draft before any, and its row version counts the
      moves. */
  lemma {:induction false} StatusIsLastMove(run: Trail, n: nat, c: Id)
    requires n <= |run.calls|
    ensures MovesAsCalled(run, n, c)
  {
    hide Inv, Grows, Perform;
    if n == 0 {
      StartsEmpty(run);
    } else {
      var m := n - 1;
      StatusIsLastMove(run, m, c);
      NextAt(run, m);
      NextBy(run, m);
      forall s
        ensures Moved(run, m, c, s) ==> LastMove(run, n, c, s)
        ensures LastMove(run, m, c, s) && (forall q :: !Moved(run, m, c, q)) ==> LastMove(run, n, c, s)
      {
        MoveStep(run, m, c, s);
      }
      hide LastMove;
      if run.Went(m) {
        var call := run.calls[m].1;
        CyclesAreTouched(run.At(m), run.calls[m].0, call, run.At(n));
        assert forall s :: Moved(run, m, c, s) <==> call.TransitionCycle? && call.cycle == c && call.target == s;
        assert Moving(run, m, c) <==> call.TransitionCycle? && call.cycle == c;
        hide Moved, Moving;
        if call.TransitionCycle? && call.cycle == c {
          assert Moved(run, m, c, call.target);
        } else if c !in run.At(m).cycles {
          NoMoveIsDraft(run, n, c);
        }
      }
    }
  }

  lemma NoMoveIsDraft(run: Trail, n: nat, c: Id)
    ensures NeverMoved(run, n, c) ==> LastMove(run, n, c, CycleStatus.Draft)
  {
    hide Moved;
  }

  // ------------------------------------------------------------------ which moves are accepted

  lemma LastMoveOnce(run: Trail, n: nat, c: Id, s: CycleStatus, q: CycleStatus)
    requires LastMove(run, n, c, s) && LastMove(run, n, c, q)
    ensures s == q
  {
    forall i | 0 <= i < n && Moved(run, i, c, s) && Moved(run, i, c, q) ensures s == q {}
    hide Moved;
  }

  /** A draft is activated once and first; only a running cycle is completed, only a completed
      one reopened, and an archived one stays. */
  ghost predicate MayMove(run: Trail, n: nat, c: Id, target: CycleStatus) {
    match target
    case Draft => false
    case Active => NeverMoved(run, n, c)
    case Completed => LastMove(run, n, c, CycleStatus.Active) || LastMove(run, n, c, CycleStatus.Reopened)
    case Reopened => LastMove(run, n, c, CycleStatus.Completed)
    case Archived => !LastMove(run, n, c, CycleStatus.Archived)
  }

  ghost predicate HasLiveTest(db: Db, c: Id) {
    exists t :: t in db.tests && PL.LiveIn(db.tests[t], c)
  }

  ghost predicate LiveTestsApproved(db: Db, c: Id) {
    forall t :: t in db.tests && PL.LiveIn(db.tests[t], c) ==>
      db.tests[t].caseId in db.cases && db.cases[db.tests[t].caseId].approved.Some?
  }

  ghost predicate NothingRuns(run: Trail, n: nat, c: Id)
    requires n <= |run.calls|
  {
    forall t :: t in run.At(n).tests && run.At(n).tests[t].cycleId == c ==> !RunningFor(run, n, t)
  }

  ghost predicate AcceptsMove(run: Trail, n: nat, c: Id, target: CycleStatus, expected: nat, reason: bool)
    requires n <= |run.calls|
  {
    && c in run.At(n).cycles && expected == 1 + Moves(run, n, c) && MayMove(run, n, c, target)
    && (target.Active? ==> HasLiveTest(run.At(n), c) && LiveTestsApproved(run.At(n), c))
    && (target.Completed? ==> NothingRuns(run, n, c))
    && (target.Reopened? ==> reason)
  }

  lemma NeverToDraft(run: Trail, i: nat, c: Id)
    ensures !Moved(run, i, c, CycleStatus.Draft)
  {
    if Moved(run, i, c, CycleStatus.Draft) {
      TransitionAccepts(run.At(i), run.calls[i].0, run.calls[i].1);
    }
    hide Perform;
  }

  lemma TransitionAccepts(db: Db, now: Time, call: Call)
    requires call.TransitionCycle?
    ensures Perform(db, now, call).Ok? <==>
              var c, target := call.cycle, call.target;
              && c in db.cycles && call.expected == db.cycles[c].rev && PL.CycleMove(db.cycles[c].status, target)
              && (target.Active? ==>
                    PL.LiveTests(db, c) != {} && !PL.AnySnapshotBroken(db, c) && PL.AllCanSnapshot(db, c))
              && (target.Completed? ==> !PL.CycleHasOpenAttempt(db, c))
              && (target.Reopened? ==> call.reasonGiven)
  {
    hide PL.SnapshotAll, PL.AllCanSnapshot, PL.AnySnapshotBroken, PL.CycleHasOpenAttempt, PL.LiveTests, PL.CycleMove;
  }

  /** A cycle moves exactly when the calls before it allow that move, it expects the number of
      moves there were, and for activation every live test can be snapshotted, for completion
      nothing runs, and for reopening a reason is given. */
  lemma MoveAcceptedExactly(run: Trail, n: nat, now: Time, c: Id, target: CycleStatus, expected: nat, reason: bool)
    requires n <= |run.calls|
    ensures Perform(run.At(n), now, Call.TransitionCycle(c, target, expected, reason)).Ok? <==>
              AcceptsMove(run, n, c, target, expected, reason)
  {
    var db := run.At(n);
    hide Perform, Inv, LastMove, NeverMoved, NothingRuns, PL.CycleHasOpenAttempt, PL.LiveTests, PL.AnySnapshotBroken,
      PL.AllCanSnapshot, HasLiveTest, LiveTestsApproved;
    AtInv(run, n);
    StatusIsLastMove(run, n, c);
    TransitionAccepts(db, now, Call.TransitionCycle(c, target, expected, reason));
    if c in db.cycles {
      MovesFit(run, n, c, db.cycles[c].status, target);
      OpenInCycle(run, n, c);
      SnapshotsFit(db, c);
    }
  }

  lemma MovesFit(run: Trail, n: nat, c: Id, s: CycleStatus, target: CycleStatus)
    requires LastMove(run, n, c, s)
    ensures PL.CycleMove(s, target) <==> MayMove(run, n, c, target)
  {
    hide Moved;
    forall i ensures !Moved(run, i, c, CycleStatus.Draft) { NeverToDraft(run, i, c); }
    assert s.Draft? <==> NeverMoved(run, n, c) by {
      if NeverMoved(run, n, c) { NoMoveIsDraft(run, n, c); LastMoveOnce(run, n, c, s, CycleStatus.Draft); }
    }
    hide LastMove;
    forall q ensures LastMove(run, n, c, q) <==> q == s {
      if LastMove(run, n, c, q) { LastMoveOnce(run, n, c, s, q); }
    }
  }

  lemma OpenInCycle(run: Trail, n: nat, c: Id)
    requires n <= |run.calls| && Inv(run.At(n))
    ensures PL.CycleHasOpenAttempt(run.At(n), c) <==> !NothingRuns(run, n, c)
  {
    hide RunningFor, RepositoryOk, HistoriesOk, CyclesOk, TestsOk, LiveOnce, OneOpen, RetestsOk, Below;
    var db := run.At(n);
    forall t ensures HasOpenAttempt(db.attempts, t) <==> RunningFor(run, n, t) { OpenExactly(run, n, t); }
    forall a | a in db.attempts
      ensures db.attempts[a].testId in db.tests && db.attempts[a].cycleId == db.tests[db.attempts[a].testId].cycleId
    {
      assert AttemptOk(db.cycles, db.tests, db.attempts[a]);
    }
    hide AttemptsOk;
    if a :| a in db.attempts && db.attempts[a].cycleId == c && db.attempts[a].status.InProgress? {
      assert OpenOn(db.attempts[a], db.attempts[a].testId);
    }
  }

  lemma SnapshotsFit(db: Db, c: Id)
    requires Inv(db)
    ensures !PL.AnySnapshotBroken(db, c)
    ensures PL.AllCanSnapshot(db, c) <==> LiveTestsApproved(db, c)
    ensures PL.LiveTests(db, c) != {} <==> HasLiveTest(db, c)
  {
    hide HistoriesOk, CyclesOk, LiveOnce, OneOpen, RetestsOk, AttemptsOk, Below;
    InvLinked(db);
    hide RepositoryOk, TestsOk;
    forall t ensures t in PL.LiveTests(db, c) <==> t in db.tests && PL.LiveIn(db.tests[t], c) {}
    hide PL.LiveTests;
    if t :| t in db.tests && PL.LiveIn(db.tests[t], c) {
      assert t in PL.LiveTests(db, c);
    }
    if t :| t in PL.LiveTests(db, c) {
    }
  }

  /** A cycle is activated at most once, so its snapshots are taken once. */
  lemma ActivatedOnce(run: Trail, i: nat, j: nat, c: Id)
    requires i < j && Moved(run, i, c, CycleStatus.Active)
    ensures !Moved(run, j, c, CycleStatus.Active)
  {
    hide Perform, LastMove;
    if Moved(run, j, c, CycleStatus.Active) {
      var call := run.calls[j].1;
      MoveAcceptedExactly(run, j, run.calls[j].0, c, call.target, call.expected, call.reasonGiven);
    }
  }

  /** Nothing moves an archived cycle. */
  lemma {:induction false} ArchivedIsFinal(run: Trail, i: nat, j: nat, c: Id, s: CycleStatus)
    requires i < j && Moved(run, i, c, CycleStatus.Archived)
    ensures !Moved(run, j, c, s)
    decreases j
  {
    hide Perform;
    if Moved(run, j, c, s) {
      forall k, q | i < k < j ensures !Moved(run, k, c, q) { ArchivedIsFinal(run, i, k, c, q); }
      assert LastMove(run, j, c, CycleStatus.Archived);
      var call := run.calls[j].1;
      MoveAcceptedExactly(run, j, run.calls[j].0, c, call.target, call.expected, call.reasonGiven);
      MovesFit(run, j, c, CycleStatus.Archived, s);
    }
  }

  // ------------------------------------------------------------------ which tests a cycle has

  ghost predicate RemovedBy(run: Trail, n: nat, t: Id) {
    exists i :: 0 <= i < n && run.Did(i, Call.RemoveCycleTest(t))
  }

  predicate IsRemoved(db: Db, t: Id) {
    t in db.tests && db.tests[t].removed
  }

  lemma RemovalStep(db: Db, now: Time, call: Call, next: Db, t: Id)
    requires Inv(db) && Perform(db, now, call) == Ok(next)
    ensures IsRemoved(next, t) <==> IsRemoved(db, t) || call == Call.RemoveCycleTest(t)
  {
    hide Inv, Perform;
    TestsAreTouched(db, now, call, next);
    if call == Call.RemoveCycleTest(t) {
      RemovalMarks(db, now, t, next);
    } else if t in db.tests && TouchesTest(db, call, t) {
      OthersKeepRemoval(db, now, call, next, t);
    }
  }

  lemma RemovalMarks(db: Db, now: Time, t: Id, next: Db)
    requires Perform(db, now, Call.RemoveCycleTest(t)) == Ok(next)
    ensures t in next.tests && next.tests[t].removed
  {
    hide HasOpenAttempt;
  }

  lemma OthersKeepRemoval(db: Db, now: Time, call: Call, next: Db, t: Id)
    requires Perform(db, now, call) == Ok(next) && t in db.tests
    requires call.TransitionCycle? || call.RefreshCycleTestVersion? || call.StartAttempt? || call.RequestRetest?
    ensures t in next.tests && next.tests[t].removed == db.tests[t].removed
  {
    hide HasAttempt, HasOpenAttempt, HasFinishedAttempt, FreshMarks, PL.AllCanSnapshot, PL.AnySnapshotBroken,
      PL.CycleHasOpenAttempt, PL.LiveTests;
  }

  /** A test is out of its cycle exactly when it was removed. */
  lemma {:induction false} RemovedExactly(run: Trail, n: nat, t: Id)
    requires n <= |run.calls|
    ensures IsRemoved(run.At(n), t) <==> RemovedBy(run, n, t)
  {
    hide Inv, Grows, Perform;
    if n == 0 {
      StartsEmpty(run);
    } else {
      var m := n - 1;
      RemovedExactly(run, m, t);
      NextAt(run, m);
      NextBy(run, m);
      assert RemovedBy(run, n, t) <==> RemovedBy(run, m, t) || run.Did(m, Call.RemoveCycleTest(t));
      hide RemovedBy;
      if run.Went(m) {
        RemovalStep(run.At(m), run.calls[m].0, run.calls[m].1, run.At(n), t);
      }
    }
  }

  /** The i-th call put t into its cycle: a case named in the call, at its place in the list, or
      the case of the test it was cloned from. */
  ghost predicate AddedAt(run: Trail, i: nat, t: Id, ct: CycleTest) {
    && run.Went(i)
    && var db := run.At(i);
       match run.calls[i].1
       case AddCycleTests(c, caseIds) =>
         db.nextId <= t < db.nextId + |caseIds| && ct.cycleId == c && ct.caseId == caseIds[t - db.nextId]
       case CloneCycle(c, _, _, rows) =>
         && db.nextId < t <= db.nextId + |rows| && ct.cycleId == db.nextId
         && var source := rows[t - db.nextId - 1];
            source in db.tests && PL.LiveIn(db.tests[source], c) && ct.caseId == db.tests[source].caseId
       case _ => false
  }

  lemma {:induction false} TestTellsItsOrigin(run: Trail, n: nat, t: Id)
    requires n <= |run.calls| && t in run.At(n).tests
    ensures exists i :: 0 <= i < n && AddedAt(run, i, t, run.At(n).tests[t])
  {
    hide Inv, Grows, Perform, AddedAt;
    if n == 0 {
      StartsEmpty(run);
    } else {
      var m := n - 1;
      NextAt(run, m);
      NextBy(run, m);
      var db, next := run.At(m), run.At(n);
      if t in db.tests {
        TestTellsItsOrigin(run, m, t);
        var i :| 0 <= i < m && AddedAt(run, i, t, db.tests[t]);
        TestStays(db, next, t);
        OriginStays(run, i, t, db.tests[t], next.tests[t]);
      } else {
        TestsAreTouched(db, run.calls[m].0, run.calls[m].1, next);
        OriginHere(run, m, t);
      }
    }
  }

  lemma TestStays(db: Db, next: Db, t: Id)
    requires Grows(db, next) && t in db.tests
    ensures t in next.tests && next.tests[t].cycleId == db.tests[t].cycleId && next.tests[t].caseId == db.tests[t].caseId
  {
    hide VersionsKept, OldContentKept, CasesKept, CyclesKept, AttemptsKept, ReleasesKept;
  }

  lemma OriginStays(run: Trail, i: nat, t: Id, before: CycleTest, after: CycleTest)
    requires AddedAt(run, i, t, before) && after.cycleId == before.cycleId && after.caseId == before.caseId
    ensures AddedAt(run, i, t, after)
  {
    hide Perform;
  }

  lemma OriginHere(run: Trail, m: nat, t: Id)
    requires m < |run.calls| && run.Went(m) && Inv(run.At(m)) && t in run.At(m + 1).tests && t !in run.At(m).tests
    requires Perform(run.At(m), run.calls[m].0, run.calls[m].1) == Ok(run.At(m + 1))
    requires TestsTouched(run.At(m), run.calls[m].1, run.At(m + 1))
    ensures AddedAt(run, m, t, run.At(m + 1).tests[t])
  {
    hide Inv, Perform;
    var db, next, now, call := run.At(m), run.At(m + 1), run.calls[m].0, run.calls[m].1;
    if call.AddCycleTests? {
      AddedRows(db, now, call.cycle, call.caseIds, next, t);
    } else if call.CloneCycle? {
      ClonedRows(db, now, call, next, t);
    }
  }

  lemma AddedRows(db: Db, now: Time, c: Id, caseIds: seq<Id>, next: Db, t: Id)
    requires Inv(db) && Perform(db, now, Call.AddCycleTests(c, caseIds)) == Ok(next)
    requires t in next.tests && t !in db.tests
    ensures c in db.cycles && db.nextId <= t < db.nextId + |caseIds|
    ensures next.tests[t] == AddedRow(db, c, caseIds[t - db.nextId])
    ensures next.tests[t].cycleId == c && next.tests[t].caseId == caseIds[t - db.nextId]
  {
    hide HistoriesOk, CyclesOk, LiveOnce, OneOpen, AttemptsOk, RetestsOk, PL.AddEach, PL.Snapshot;
    InvLinked(db);
    hide TestsOk, RepositoryOk;
    AddEachExactly(db, c, caseIds);
    SnapshotKeeps(db);
  }

  lemma ClonedRows(db: Db, now: Time, call: Call, next: Db, t: Id)
    requires Inv(db) && call.CloneCycle? && Perform(db, now, call) == Ok(next) && t in next.tests && t !in db.tests
    ensures db.nextId < t <= db.nextId + |call.rows|
    ensures var source := call.rows[t - db.nextId - 1];
      && source in db.tests && PL.LiveIn(db.tests[source], call.cycle)
      && next.tests[t].cycleId == db.nextId && next.tests[t].caseId == db.tests[source].caseId
  {
    hide HistoriesOk, CyclesOk, LiveOnce, OneOpen, AttemptsOk, RetestsOk, RepositoryOk, Strip;
    ClonedRow(db, call.cycle, call.rows, t);
    hide TestsOk;
    var source := call.rows[t - db.nextId - 1];
    assert source in PL.LiveTests(db, call.cycle);
  }

  // ------------------------------------------------------------------ which version a test holds

  /** The call takes a snapshot for t: it activates t's cycle, refreshes t, or adds t to a
      running cycle. */
  ghost predicate Snapshots(db: Db, call: Call, next: Db, t: Id) {
    match call
    case TransitionCycle(c, target, _, _) =>
      target.Active? && t in db.tests && db.tests[t].cycleId == c && !db.tests[t].removed
    case RefreshCycleTestVersion(u) => u == t
    case AddCycleTests(c, _) =>
      && t in next.tests && t !in db.tests && c in db.cycles
      && (db.cycles[c].status.Active? || db.cycles[c].status.Reopened?)
    case _ => false
  }

  ghost predicate TakesSnapshot(run: Trail, i: nat, t: Id) {
    run.Went(i) && Snapshots(run.At(i), run.calls[i].1, run.At(i + 1), t)
  }

  lemma SnapshotStep(db: Db, now: Time, call: Call, next: Db, t: Id)
    requires Inv(db) && Perform(db, now, call) == Ok(next)
    ensures Snapshots(db, call, next, t) ==>
              && t in next.tests && next.tests[t].caseId in db.cases
              && next.tests[t].versionId == db.cases[next.tests[t].caseId].approved && next.tests[t].versionId.Some?
    ensures !Snapshots(db, call, next, t) && t in next.tests ==>
              next.tests[t].versionId == if t in db.tests then db.tests[t].versionId else None
  {
    hide Inv, Perform;
    TestsAreTouched(db, now, call, next);
    if call.AddCycleTests? {
      if t in next.tests && t !in db.tests { AddedVersion(db, now, call.cycle, call.caseIds, next, t); }
    } else if call.TransitionCycle? {
      if t in db.tests { ActivatedVersion(db, now, call, next, t); }
    } else if call == Call.RefreshCycleTestVersion(t) {
      RefreshedVersion(db, now, t, next);
    } else if t in db.tests && TouchesTest(db, call, t) {
      OthersKeepVersion(db, now, call, next, t);
    }
  }

  lemma AddedVersion(db: Db, now: Time, c: Id, caseIds: seq<Id>, next: Db, t: Id)
    requires Inv(db) && Perform(db, now, Call.AddCycleTests(c, caseIds)) == Ok(next)
    requires t in next.tests && t !in db.tests
    ensures c in db.cycles
    ensures if PL.Running(db.cycles[c].status) then
              && next.tests[t].caseId in db.cases
              && next.tests[t].versionId == db.cases[next.tests[t].caseId].approved && next.tests[t].versionId.Some?
            else next.tests[t].versionId.None?
  {
    hide Inv, Perform, AddedRow;
    AddedRows(db, now, c, caseIds, next, t);
    AddedAreAddable(db, now, c, caseIds, next);
    assert caseIds[t - db.nextId] in caseIds;
    hide PL.Running, AddableCase;
    AddedRowVersion(db, c, caseIds[t - db.nextId]);
  }

  lemma AddedAreAddable(db: Db, now: Time, c: Id, caseIds: seq<Id>, next: Db)
    requires Inv(db) && Perform(db, now, Call.AddCycleTests(c, caseIds)) == Ok(next)
    ensures c in db.cycles && ApprovalsKnown(db) && forall x :: x in caseIds ==> AddableCase(db, c, x)
  {
    hide HistoriesOk, CyclesOk, LiveOnce, OneOpen, AttemptsOk, RetestsOk, PL.AddEach, AddableCase;
    InvLinked(db);
    hide TestsOk, RepositoryOk;
    AddEachExactly(db, c, caseIds);
  }

  lemma AddedRowVersion(db: Db, c: Id, x: Id)
    requires ApprovalsKnown(db) && c in db.cycles && AddableCase(db, c, x)
    ensures var row := AddedRow(db, c, x);
      && row.caseId == x && x in db.cases
      && (if PL.Running(db.cycles[c].status) then row.versionId == db.cases[x].approved && row.versionId.Some?
          else row.versionId.None?)
  {
    hide PL.HasCase;
  }

  lemma ActivatedVersion(db: Db, now: Time, call: Call, next: Db, t: Id)
    requires Inv(db) && call.TransitionCycle? && Perform(db, now, call) == Ok(next) && t in db.tests && t in next.tests
    ensures if call.target.Active? && PL.LiveIn(db.tests[t], call.cycle) then
              && next.tests[t].caseId in db.cases
              && next.tests[t].versionId == db.cases[next.tests[t].caseId].approved && next.tests[t].versionId.Some?
            else next.tests[t].versionId == db.tests[t].versionId
  {
    hide HistoriesOk, CyclesOk, LiveOnce, OneOpen, AttemptsOk, RetestsOk, PL.TransitionCycle;
    TransitionedRow(db, call.cycle, call.target, call.expected, call.reasonGiven, next, t);
    InvLinked(db);
    hide RepositoryOk, TestsOk;
  }

  lemma RefreshedVersion(db: Db, now: Time, t: Id, next: Db)
    requires Perform(db, now, Call.RefreshCycleTestVersion(t)) == Ok(next)
    ensures t in next.tests && next.tests[t].caseId in db.cases
    ensures next.tests[t].versionId == db.cases[next.tests[t].caseId].approved && next.tests[t].versionId.Some?
  {
    hide HasAttempt;
  }

  lemma OthersKeepVersion(db: Db, now: Time, call: Call, next: Db, t: Id)
    requires Perform(db, now, call) == Ok(next) && t in db.tests
    requires call.RemoveCycleTest? || call.StartAttempt? || call.RequestRetest?
    ensures t in next.tests && next.tests[t].versionId == db.tests[t].versionId
  {
    hide HasOpenAttempt, HasFinishedAttempt, FreshMarks;
  }

  ghost predicate NoSnapshot(run: Trail, n: nat, t: Id) {
    forall i :: 0 <= i < n ==> !TakesSnapshot(run, i, t)
  }

  /** The version of t is the one that was approved when its last snapshot was taken. */
  ghost predicate HoldsApproved(run: Trail, n: nat, t: Id, ct: CycleTest) {
    if ct.versionId.None? then NoSnapshot(run, n, t)
    else exists i :: 0 <= i < n && TakenAt(run, i, t, ct) && forall j :: i < j < n ==> !TakesSnapshot(run, j, t)
  }

  ghost predicate TakenAt(run: Trail, i: nat, t: Id, ct: CycleTest) {
    && TakesSnapshot(run, i, t) && ct.caseId in run.At(i).cases
    && run.At(i).cases[ct.caseId].approved == ct.versionId
  }

  /** A test holds the version that was the approved one when its cycle was activated, it was
      added or last refreshed, whatever was approved later; before that it holds none. */
  lemma {:induction false} SnapshotIsOfItsTime(run: Trail, n: nat, t: Id)
    requires n <= |run.calls|
    ensures if t in run.At(n).tests then HoldsApproved(run, n, t, run.At(n).tests[t]) else NoSnapshot(run, n, t)
  {
    hide Inv, Grows, Perform, TakesSnapshot;
    if n == 0 {
      StartsEmpty(run);
    } else {
      var m := n - 1;
      SnapshotIsOfItsTime(run, m, t);
      NextAt(run, m);
      NextBy(run, m);
      if run.Went(m) {
        HoldsStep(run, m, t);
      } else {
        assert !TakesSnapshot(run, m, t) by { NotTaken(run, m, t); }
        if t in run.At(m).tests { HoldsStays(run, m, t, run.At(m).tests[t], run.At(m).tests[t]); }
      }
    }
  }

  lemma NotTaken(run: Trail, i: nat, t: Id)
    ensures run.Went(i) ==> (TakesSnapshot(run, i, t) <==> Snapshots(run.At(i), run.calls[i].1, run.At(i + 1), t))
    ensures !run.Went(i) ==> !TakesSnapshot(run, i, t)
  {
    hide Perform;
  }

  lemma HoldsStays(run: Trail, m: nat, t: Id, before: CycleTest, after: CycleTest)
    requires HoldsApproved(run, m, t, before) && !TakesSnapshot(run, m, t)
    requires after.caseId == before.caseId && after.versionId == before.versionId
    ensures HoldsApproved(run, m + 1, t, after)
  {
    hide TakesSnapshot;
    if before.versionId.Some? {
      var i :| 0 <= i < m && TakenAt(run, i, t, before) && forall j :: i < j < m ==> !TakesSnapshot(run, j, t);
      assert TakenAt(run, i, t, after);
      assert forall j :: i < j < m + 1 ==> !TakesSnapshot(run, j, t);
    }
  }

  lemma HoldsStep(run: Trail, m: nat, t: Id)
    requires m < |run.calls| && run.Went(m) && Inv(run.At(m)) && Grows(run.At(m), run.At(m + 1))
    requires Perform(run.At(m), run.calls[m].0, run.calls[m].1) == Ok(run.At(m + 1))
    requires if t in run.At(m).tests then HoldsApproved(run, m, t, run.At(m).tests[t]) else NoSnapshot(run, m, t)
    ensures if t in run.At(m + 1).tests then HoldsApproved(run, m + 1, t, run.At(m + 1).tests[t])
            else NoSnapshot(run, m + 1, t)
  {
    hide Inv, Grows, Perform, Snapshots, TakesSnapshot;
    var db, next, now, call := run.At(m), run.At(m + 1), run.calls[m].0, run.calls[m].1;
    SnapshotStep(db, now, call, next, t);
    NotTaken(run, m, t);
    if Snapshots(db, call, next, t) {
      assert TakenAt(run, m, t, next.tests[t]);
    } else if t in db.tests {
      TestStays(db, next, t);
      HoldsStays(run, m, t, db.tests[t], next.tests[t]);
    }
  }

  // ------------------------------------------------------------------ where a cycle runs

  /** The i-th call made plan p, of this project and release. */
  ghost predicate PlannedAt(run: Trail, i: nat, p: Id, plan: Plan) {
    run.Did(i, Call.CreatePlan(plan.project, plan.release)) && run.At(i).nextId == p
  }

  lemma PlansAreMade(db: Db, now: Time, call: Call, next: Db, p: Id)
    requires Inv(db) && Perform(db, now, call) == Ok(next) && p in next.plans
    ensures p in db.plans ==> next.plans[p] == db.plans[p]
    ensures p !in db.plans ==>
              p == db.nextId && call == Call.CreatePlan(next.plans[p].project, next.plans[p].release)
  {
    hide Inv, Perform;
    if call.CreatePlan? || call.DeletePlan? || call.CreateRelease? {
      assert Below(db.plans, db.nextId) by { PlansBelow(db); }
      PlanCallMakes(db, now, call, next, p);
    } else {
      OtherTablesStay(db, now, call, next);
    }
  }

  lemma PlansBelow(db: Db)
    requires Inv(db)
    ensures Below(db.plans, db.nextId)
  {
    hide RepositoryOk, HistoriesOk, CyclesOk, TestsOk, LiveOnce, OneOpen, AttemptsOk, RetestsOk;
  }

  lemma PlanCallMakes(db: Db, now: Time, call: Call, next: Db, p: Id)
    requires call.CreatePlan? || call.DeletePlan? || call.CreateRelease?
    requires Perform(db, now, call) == Ok(next) && p in next.plans && Below(db.plans, db.nextId)
    ensures p in db.plans ==> next.plans[p] == db.plans[p]
    ensures p !in db.plans ==>
              p == db.nextId && call == Call.CreatePlan(next.plans[p].project, next.plans[p].release)
  {}

  /** A plan has the project and the release it was made with. */
  lemma {:induction false} PlanTellsItsCall(run: Trail, n: nat, p: Id)
    requires n <= |run.calls| && p in run.At(n).plans
    ensures exists i :: 0 <= i < n && PlannedAt(run, i, p, run.At(n).plans[p])
  {
    hide Inv, Grows, Perform;
    if n == 0 {
      StartsEmpty(run);
    } else {
      var m := n - 1;
      NextAt(run, m);
      NextBy(run, m);
      if run.Went(m) {
        PlansAreMade(run.At(m), run.calls[m].0, run.calls[m].1, run.At(n), p);
      }
      if p in run.At(m).plans {
        PlanTellsItsCall(run, m, p);
      } else {
        assert PlannedAt(run, m, p, run.At(n).plans[p]);
      }
    }
  }

  /** What is stored of a text that was given, with this one for none. */
  predicate TextFor(given: string, other: string, stored: string) {
    stored == if Strip(given) == "" then other else Strip(given)
  }

  /** The i-th call made cycle c: for the plan it names, its release or else the plan's, where
      it says; a clone runs where its source does, unless the call says otherwise. */
  ghost predicate MadeAt(run: Trail, i: nat, c: Id, cyc: Cycle) {
    && run.Went(i) && run.At(i).nextId == c
    && var db := run.At(i);
       match run.calls[i].1
       case CreateCycle(p, release, environment, build) =>
         && p in db.plans && cyc.project == db.plans[p].project && cyc.context.plan == p
         && cyc.context.release == (if release.Some? then release else db.plans[p].release)
         && TextFor(environment, "default", cyc.context.environment)
         && TextFor(build, "unspecified", cyc.context.build)
       case CloneCycle(source, environment, build, _) =>
         && source in db.cycles && cyc.project == db.cycles[source].project
         && cyc.context.plan == db.cycles[source].context.plan
         && cyc.context.release == db.cycles[source].context.release
         && (if environment == "" then cyc.context.environment == db.cycles[source].context.environment
             else TextFor(environment, "default", cyc.context.environment))
         && (if build == "" then cyc.context.build == db.cycles[source].context.build
             else TextFor(build, "unspecified", cyc.context.build))
       case _ => false
  }

  ghost predicate Named(cyc: Cycle) {
    && Strip(cyc.context.environment) == cyc.context.environment != ""
    && Strip(cyc.context.build) == cyc.context.build != ""
  }

  /** A cycle runs where the call that made it said, whatever happened since. */
  lemma {:induction false} CycleTellsWhereItRuns(run: Trail, n: nat, c: Id)
    requires n <= |run.calls| && c in run.At(n).cycles
    ensures Named(run.At(n).cycles[c])
    ensures exists i :: 0 <= i < n && MadeAt(run, i, c, run.At(n).cycles[c])
  {
    hide Inv, Grows, Perform, MadeAt, Named;
    if n == 0 {
      StartsEmpty(run);
    } else {
      var m := n - 1;
      NextAt(run, m);
      NextBy(run, m);
      var db, next := run.At(m), run.At(n);
      if run.Went(m) {
        CyclesAreTouched(db, run.calls[m].0, run.calls[m].1, next);
      }
      if c in db.cycles {
        CycleTellsWhereItRuns(run, m, c);
        var i :| 0 <= i < m && MadeAt(run, i, c, db.cycles[c]);
        MakingStays(run, i, c, db.cycles[c], next.cycles[c]);
      } else {
        if run.calls[m].1.CloneCycle? {
          SourceKnown(db, run.calls[m].0, run.calls[m].1);
          CycleTellsWhereItRuns(run, m, run.calls[m].1.cycle);
        }
        MadeHere(run, m, c);
      }
    }
  }

  lemma MakingStays(run: Trail, i: nat, c: Id, before: Cycle, after: Cycle)
    requires MadeAt(run, i, c, before) && after.context == before.context && after.project == before.project
    ensures MadeAt(run, i, c, after) && (Named(before) ==> Named(after))
  {
    hide Perform, TextFor, Strip;
  }

  lemma SourceKnown(db: Db, now: Time, call: Call)
    requires call.CloneCycle? && Perform(db, now, call).Ok?
    ensures call.cycle in db.cycles
  {
    hide Strip, PL.ClonedTests, Enumerates;
  }

  lemma MadeHere(run: Trail, m: nat, c: Id)
    requires m < |run.calls| && run.Went(m) && c in run.At(m + 1).cycles && c !in run.At(m).cycles
    requires Perform(run.At(m), run.calls[m].0, run.calls[m].1) == Ok(run.At(m + 1))
    requires CyclesTouched(run.At(m), run.calls[m].1, run.At(m + 1))
    requires run.calls[m].1.CloneCycle? ==>
               run.calls[m].1.cycle in run.At(m).cycles && Named(run.At(m).cycles[run.calls[m].1.cycle])
    ensures MadeAt(run, m, c, run.At(m + 1).cycles[c]) && Named(run.At(m + 1).cycles[c])
  {
    hide Perform, Strip;
    var db, next, now, call := run.At(m), run.At(m + 1), run.calls[m].0, run.calls[m].1;
    StripTrimmed("default");
    StripTrimmed("unspecified");
    match call
    case CreateCycle(p, release, environment, build) =>
      CreatedRow(db, now, p, release, environment, build, next);
      StripTwice(environment);
      StripTwice(build);
    case CloneCycle(source, environment, build, rows) =>
      ClonedCycle(db, now, source, environment, build, rows, next);
      StripTwice(environment);
      StripTwice(build);
    case _ =>
  }

  lemma CreatedRow(
    db: Db, now: Time, p: Id, release: Option<Id>, environment: string, build: string, next: Db)
    requires Perform(db, now, Call.CreateCycle(p, release, environment, build)) == Ok(next)
    ensures p in db.plans && db.nextId in next.cycles
    ensures var cyc := next.cycles[db.nextId];
      && cyc.project == db.plans[p].project && cyc.context.plan == p
      && cyc.context.release == (if release.Some? then release else db.plans[p].release)
      && TextFor(environment, "default", cyc.context.environment)
      && TextFor(build, "unspecified", cyc.context.build)
  {
    hide Strip;
  }

  lemma ClonedCycle(
    db: Db, now: Time, source: Id, environment: string, build: string, rows: seq<Id>, next: Db)
    requires Perform(db, now, Call.CloneCycle(source, environment, build, rows)) == Ok(next)
    ensures source in db.cycles && db.nextId in next.cycles
    ensures var cyc, src := next.cycles[db.nextId], db.cycles[source];
      && cyc.project == src.project && cyc.context.plan == src.context.plan
      && cyc.context.release == src.context.release
      && TextFor(if environment == "" then src.context.environment else environment, "default", cyc.context.environment)
      && TextFor(if build == "" then src.context.build else build, "unspecified", cyc.context.build)
  {
    hide Strip, PL.ClonedTests, Enumerates;
  }

  // ------------------------------------------------------------------ which changes of scope are accepted

  predicate InUse(db: Db, t: Id) {
    t in db.tests && db.tests[t].cycleId in db.cycles
    && (db.cycles[db.tests[t].cycleId].status.Draft? || db.cycles[db.tests[t].cycleId].status.Active?
        || db.cycles[db.tests[t].cycleId].status.Reopened?)
  }

  predicate ReleaseOfProject(db: Db, release: Option<Id>, project: Id) {
    release.Some? ==> release.value in db.releases && db.releases[release.value] == project
  }

  ghost predicate AcceptsScope(run: Trail, n: nat, call: Call)
    requires n <= |run.calls|
  {
    var db := run.At(n);
    match call
    case CreateCycle(p, release, _, _) => p in db.plans && ReleaseOfProject(db, release, db.plans[p].project)
    case CloneCycle(c, _, _, rows) => c in db.cycles && Enumerates(rows, PL.LiveTests(db, c))
    case RemoveCycleTest(t) => InUse(db, t) && !RemovedBy(run, n, t) && !RunningFor(run, n, t)
    case RefreshCycleTestVersion(t) =>
      && t in db.tests && !EverStarted(run, n, t)
      && db.tests[t].caseId in db.cases && db.cases[db.tests[t].caseId].approved.Some?
    case _ => false
  }

  /** A test leaves its cycle while the cycle is in use and nothing runs on it, and changes its
      version only as long as it was never started. */
  lemma ScopeAcceptedExactly(run: Trail, n: nat, now: Time, call: Call)
    requires n <= |run.calls|
    requires call.CreateCycle? || call.CloneCycle? || call.RemoveCycleTest? || call.RefreshCycleTestVersion?
    ensures Perform(run.At(n), now, call).Ok? <==> AcceptsScope(run, n, call)
  {
    var db := run.At(n);
    hide Perform, AcceptsScope;
    match call
    case CreateCycle(p, release, env, build) =>
      CreateAccepts(db, now, p, release, env, build);
      CycleAcceptsScope(run, n, call);
    case CloneCycle(c, env, build, rows) =>
      CloneAccepts(db, now, c, env, build, rows);
      CycleAcceptsScope(run, n, call);
    case RemoveCycleTest(t) => RemoveAcceptedExactly(run, n, now, t);
    case RefreshCycleTestVersion(t) => RefreshAcceptedExactly(run, n, now, t);
  }

  lemma CycleAcceptsScope(run: Trail, n: nat, call: Call)
    requires n <= |run.calls|
    ensures call.CreateCycle? ==>
              (AcceptsScope(run, n, call) <==>
                 && call.plan in run.At(n).plans
                 && ReleaseOfProject(run.At(n), call.release, run.At(n).plans[call.plan].project))
    ensures call.CloneCycle? ==>
              (AcceptsScope(run, n, call) <==>
                 call.cycle in run.At(n).cycles && Enumerates(call.rows, PL.LiveTests(run.At(n), call.cycle)))
  {
    hide Enumerates, PL.LiveTests, ReleaseOfProject;
  }

  lemma RemoveAcceptedExactly(run: Trail, n: nat, now: Time, t: Id)
    requires n <= |run.calls|
    ensures Perform(run.At(n), now, Call.RemoveCycleTest(t)).Ok? <==> AcceptsScope(run, n, Call.RemoveCycleTest(t))
  {
    hide Perform, RemovedBy, RunningFor, HasOpenAttempt, InUse;
    RemovedExactly(run, n, t);
    OpenExactly(run, n, t);
    RemoveAccepts(run.At(n), now, t);
    UsedIsTest(run.At(n), t);
  }

  lemma UsedIsTest(db: Db, t: Id)
    ensures InUse(db, t) ==> t in db.tests
  {}

  lemma RefreshAcceptedExactly(run: Trail, n: nat, now: Time, t: Id)
    requires n <= |run.calls|
    ensures Perform(run.At(n), now, Call.RefreshCycleTestVersion(t)).Ok? <==>
              AcceptsScope(run, n, Call.RefreshCycleTestVersion(t))
  {
    hide Perform, Inv, EverStarted, HasAttempt;
    AtInv(run, n);
    AttemptedExactly(run, n, t);
    RefreshAccepts(run.At(n), now, t);
  }

  /** A release needs one of the projects there are, a plan needs one as well and a release of it
      if it names any, and a plan goes only while no cycle is in it. */
  lemma PlanAcceptedExactly(run: Trail, n: nat, now: Time, project: Id, release: Option<Id>, p: Id)
    requires n <= |run.calls|
    ensures Perform(run.At(n), now, Call.CreateRelease(project)).Ok? <==> project in run.projects
    ensures Perform(run.At(n), now, Call.CreatePlan(project, release)).Ok? <==>
              project in run.projects && ReleaseOfProject(run.At(n), release, project)
    ensures Perform(run.At(n), now, Call.DeletePlan(p)).Ok? <==>
              p in run.At(n).plans && forall c :: c in run.At(n).cycles ==> run.At(n).cycles[c].context.plan != p
  {
    assert run.At(n).projects == run.projects by {
      StartsEmpty(run);
      AtGrows(run, 0, n);
    }
    PlanAccepts(run.At(n), now, project, release, p);
    hide Perform, ReleaseOfProject;
  }

  lemma PlanAccepts(db: Db, now: Time, project: Id, release: Option<Id>, p: Id)
    ensures Perform(db, now, Call.CreateRelease(project)).Ok? <==> project in db.projects
    ensures Perform(db, now, Call.CreatePlan(project, release)).Ok? <==>
              project in db.projects && ReleaseOfProject(db, release, project)
    ensures Perform(db, now, Call.DeletePlan(p)).Ok? <==>
              p in db.plans && forall c :: c in db.cycles ==> db.cycles[c].context.plan != p
  {}

  lemma CreateAccepts(db: Db, now: Time, p: Id, release: Option<Id>, env: string, build: string)
    ensures Perform(db, now, Call.CreateCycle(p, release, env, build)).Ok? <==>
              p in db.plans && ReleaseOfProject(db, release, db.plans[p].project)
  {
    hide StripOr;
  }

  lemma CloneAccepts(db: Db, now: Time, c: Id, env: string, build: string, rows: seq<Id>)
    ensures Perform(db, now, Call.CloneCycle(c, env, build, rows)).Ok? <==>
              c in db.cycles && Enumerates(rows, PL.LiveTests(db, c))
  {
    hide StripOr, PL.ClonedTests;
  }

  lemma RemoveAccepts(db: Db, now: Time, t: Id)
    ensures Perform(db, now, Call.RemoveCycleTest(t)).Ok? <==>
              InUse(db, t) && !IsRemoved(db, t) && !HasOpenAttempt(db.attempts, t)
  {
    hide HasOpenAttempt;
  }

  lemma RefreshAccepts(db: Db, now: Time, t: Id)
    requires Inv(db)
    ensures Perform(db, now, Call.RefreshCycleTestVersion(t)).Ok? <==>
              && t in db.tests && !HasAttempt(db.attempts, t)
              && db.tests[t].caseId in db.cases && db.cases[db.tests[t].caseId].approved.Some?
  {
    hide HistoriesOk, CyclesOk, LiveOnce, OneOpen, RetestsOk, AttemptsOk, Below, HasAttempt;
    InvLinked(db);
    hide RepositoryOk, TestsOk;
  }

  /** A clone has one test for each live test of its source, of the same case. */
  lemma CloneIsWhole(run: Trail, i: nat, source: Id)
    requires i < |run.calls| && run.Went(i) && run.calls[i].1.CloneCycle?
    requires source in run.At(i).tests && PL.LiveIn(run.At(i).tests[source], run.calls[i].1.cycle)
    ensures exists t :: t in run.At(i + 1).tests && t !in run.At(i).tests
                        && run.At(i + 1).tests[t].cycleId == run.At(i).nextId
                        && run.At(i + 1).tests[t].caseId == run.At(i).tests[source].caseId
  {
    hide Perform, Inv, Grows;
    NextAt(run, i);
    NextBy(run, i);
    var t := CloneOf(run.At(i), run.calls[i].0, run.calls[i].1, run.At(i + 1), source);
  }

  lemma CloneOf(db: Db, now: Time, call: Call, next: Db, source: Id) returns (t: Id)
    requires Inv(db) && call.CloneCycle? && Perform(db, now, call) == Ok(next)
    requires source in db.tests && PL.LiveIn(db.tests[source], call.cycle)
    ensures t in next.tests && t !in db.tests
    ensures next.tests[t].cycleId == db.nextId && next.tests[t].caseId == db.tests[source].caseId
  {
    hide HistoriesOk, CyclesOk, LiveOnce, OneOpen, RetestsOk, AttemptsOk, RepositoryOk, TestsOk, StripOr;
    assert source in PL.LiveTests(db, call.cycle);
    var k :| 0 <= k < |call.rows| && call.rows[k] == source;
    t := db.nextId + 1 + k;
    assert t in PL.ClonedTests(db.tests, db.nextId, db.cycles[call.cycle].project, call.rows);
  }
}
