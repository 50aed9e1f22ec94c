/** What the execution tables say, told from the calls alone: a pending retest, a tester's
    mark, a verdict and a running attempt are each what the last call about them made it. */
module ExecutionHistory {
  import opened Common
  import opened Tables
  import opened Evidence
  import opened Preservation
  import opened Runs
  import opened Ledger
  import TC = TestCases
  import PL = Planning
  import EX = Execution

  // ------------------------------------------------------------------ retests

  /** Of the first n calls, some asked for a retest of t and none since has started one. */
  ghost predicate RetestAsked(run: Trail, n: nat, t: Id) {
    exists i :: 0 <= i < n && run.Did(i, Call.RequestRetest(t))
                && forall j :: i < j < n ==> !run.Did(j, Call.StartAttempt(t))
  }

  predicate Flagged(db: Db, t: Id) {
    t in db.tests && db.tests[t].retest
  }

  lemma FlagStep(db: Db, now: Time, call: Call, next: Db, t: Id)
    requires Inv(db) && Perform(db, now, call) == Ok(next)
    ensures Flagged(next, t) <==> call == Call.RequestRetest(t) || (Flagged(db, t) && call != Call.StartAttempt(t))
  {
    hide Inv, Perform;
    TestsAreTouched(db, now, call, next);
    if call == Call.StartAttempt(t) {
      StartClears(db, now, t, next);
    } else if call == Call.RequestRetest(t) {
      RequestFlags(db, now, t, next);
    } else if t in db.tests && TouchesTest(db, call, t) {
      PlanningKeepsFlag(db, now, call, next, t);
    }
  }

  lemma StartClears(db: Db, now: Time, t: Id, next: Db)
    requires Perform(db, now, Call.StartAttempt(t)) == Ok(next)
    ensures t in next.tests && !next.tests[t].retest
  {
    hide HasOpenAttempt, FreshMarks;
  }

  lemma RequestFlags(db: Db, now: Time, t: Id, next: Db)
    requires Perform(db, now, Call.RequestRetest(t)) == Ok(next)
    ensures t in next.tests && next.tests[t].retest
  {
    hide HasFinishedAttempt;
  }

  lemma PlanningKeepsFlag(db: Db, now: Time, call: Call, next: Db, t: Id)
    requires Perform(db, now, call) == Ok(next) && t in db.tests
    requires call.TransitionCycle? || call.RemoveCycleTest? || call.RefreshCycleTestVersion?
    ensures t in next.tests && next.tests[t].retest == db.tests[t].retest
  {
    hide HasAttempt, HasOpenAttempt, PL.AllCanSnapshot, PL.AnySnapshotBroken, PL.CycleHasOpenAttempt, PL.LiveTests;
  }

  /** A retest is pending exactly when one was asked for and no attempt was started since. */
  lemma {:induction false} RetestPendingExactly(run: Trail, n: nat, t: Id)
    requires n <= |run.calls|
    ensures Flagged(run.At(n), t) <==> RetestAsked(run, n, t)
  {
    hide Inv, Grows, Perform;
    if n == 0 {
      StartsEmpty(run);
    } else {
      var m := n - 1;
      RetestPendingExactly(run, m, t);
      NextAt(run, m);
      NextBy(run, m);
      hide RetestAsked;
      if run.Went(m) {
        FlagStep(run.At(m), run.calls[m].0, run.calls[m].1, run.At(n), t);
      }
      AskedStep(run, m, t);
    }
  }

  lemma AskedStep(run: Trail, m: nat, t: Id)
    ensures RetestAsked(run, m + 1, t) <==>
              run.Did(m, Call.RequestRetest(t)) || (RetestAsked(run, m, t) && !run.Did(m, Call.StartAttempt(t)))
  {
    hide Trail.Did;
    if RetestAsked(run, m, t) && !run.Did(m, Call.StartAttempt(t)) {
      var i :| 0 <= i < m && run.Did(i, Call.RequestRetest(t))
               && forall j :: i < j < m ==> !run.Did(j, Call.StartAttempt(t));
      assert forall j :: i < j < m + 1 ==> !run.Did(j, Call.StartAttempt(t));
    }
  }

  // ------------------------------------------------------------------ marks

  /** The i-th call marked step k of a with r. */
  ghost predicate Gave(run: Trail, i: nat, a: Id, k: nat, r: StepResult) {
    run.Did(i, Call.SetStepResult(a, k, Some(r)))
  }

  /** Of the first n calls, the last that marked step k of a gave r; or there was none. */
  ghost predicate LastGiven(run: Trail, n: nat, a: Id, k: nat, r: StepResult) {
    || (exists i :: 0 <= i < n && Gave(run, i, a, k, r) && forall j, q :: i < j < n ==> !Gave(run, j, a, k, q))
    || (r.StepNotRun? && forall i, q :: 0 <= i < n ==> !Gave(run, i, a, k, q))
  }

  lemma GivenStep(run: Trail, m: nat, a: Id, k: nat, r: StepResult)
    ensures Gave(run, m, a, k, r) ==> LastGiven(run, m + 1, a, k, r)
    ensures LastGiven(run, m, a, k, r) && (forall q :: !Gave(run, m, a, k, q)) ==> LastGiven(run, m + 1, a, k, r)
  {
    hide Gave;
    if i :| 0 <= i < m && Gave(run, i, a, k, r) && forall j, q :: i < j < m ==> !Gave(run, j, a, k, q) {
      assert (forall q :: !Gave(run, m, a, k, q)) ==> forall j, q :: i < j < m + 1 ==> !Gave(run, j, a, k, q);
    }
  }

  /** A step has one last mark. */
  lemma LastGivenOnce(run: Trail, n: nat, a: Id, k: nat, r: StepResult, q: StepResult)
    requires LastGiven(run, n, a, k, r) && LastGiven(run, n, a, k, q)
    ensures r == q
  {
    forall i | 0 <= i < n && Gave(run, i, a, k, r) && Gave(run, i, a, k, q) ensures r == q {}
    hide Gave;
  }

  /** Steps are numbered from one, so the number says the place. */
  lemma NumberedPlace(steps: seq<StepMark>, k: nat)
    requires TC.Numbered(Texts(steps))
    ensures EX.StepAt(steps, k) == if 1 <= k <= |steps| then k - 1 else |steps|
  {
    forall j | 0 <= j < |steps| ensures steps[j].text.index == j + 1 {
      assert Texts(steps)[j].index == j + 1;
    }
    hide EX.StepAt, TC.Numbered, Texts;
    var i := EX.StepAt(steps, k);
    if 1 <= k <= |steps| {
      assert steps[k - 1].text.index == k;
    }
  }

  lemma AttemptNumbered(db: Db, a: Id)
    requires AttemptsOk(db.cycles, db.tests, db.attempts) && TestsOk(db.cases, db.versions, db.cycles, db.tests)
    requires RepositoryOk(db.cases, db.versions) && a in db.attempts
    ensures TC.Numbered(Texts(db.attempts[a].steps))
  {
    hide TC.Numbered;
    assert AttemptOk(db.cycles, db.tests, db.attempts[a]);
    assert TestOk(db.cases, db.versions, db.cycles, db.tests[db.attempts[a].testId]);
    assert VersionOk(db.cases, db.versions, db.attempts[a].versionId);
  }

  /** Marking step k changes that mark to the one given, and no other. */
  lemma MarkStored(db: Db, now: Time, a: Id, k: nat, r: Option<StepResult>, next: Db)
    requires Inv(db) && Perform(db, now, Call.SetStepResult(a, k, r)) == Ok(next)
    ensures r.Some? && a in db.attempts && a in next.attempts && 1 <= k <= |db.attempts[a].steps|
    ensures next.attempts[a].steps == db.attempts[a].steps[k - 1 := StepMark(db.attempts[a].steps[k - 1].text, r.value)]
  {
    hide HistoriesOk, LiveOnce, OneOpen, RetestsOk, CyclesOk, Below, RepositoryOk, TestsOk, AttemptsOk, EX.StepAt;
    assert a in db.attempts;
    AttemptNumbered(db, a);
    hide TC.Numbered;
    NumberedPlace(db.attempts[a].steps, k);
  }

  /** The other calls on an attempt leave its marks. */
  lemma EndKeepsMarks(db: Db, now: Time, call: Call, next: Db, a: Id)
    requires Perform(db, now, call) == Ok(next) && a in db.attempts && TouchesAttempt(call, a) && !call.SetStepResult?
    ensures a in next.attempts && next.attempts[a].steps == db.attempts[a].steps
  {
    hide EX.DeriveOverallResult;
  }

  ghost predicate MarksAsGiven(run: Trail, n: nat, a: Id)
    requires n <= |run.calls|
  {
    if a in run.At(n).attempts then
      var steps := run.At(n).attempts[a].steps;
      forall i :: 0 <= i < |steps| ==> LastGiven(run, n, a, i + 1, steps[i].result)
    else NoneGiven(run, n, a)
  }

  ghost predicate NoneGiven(run: Trail, n: nat, a: Id) {
    forall i, k, q :: 0 <= i < n ==> !Gave(run, i, a, k, q)
  }

  lemma NotRunYet(run: Trail, n: nat, a: Id, k: nat)
    requires NoneGiven(run, n, a)
    ensures LastGiven(run, n, a, k, StepNotRun)
  {
    hide Gave;
  }

  /** The mark of each step is the last one the tester gave it, or not run. */
  lemma {:induction false} MarksAreLastGiven(run: Trail, n: nat, a: Id)
    requires n <= |run.calls|
    ensures MarksAsGiven(run, n, a)
  {
    hide Inv, Grows, Perform;
    if n == 0 {
      StartsEmpty(run);
    } else {
      var m := n - 1;
      MarksAreLastGiven(run, m, a);
      NextAt(run, m);
      NextBy(run, m);
      hide LastGiven, Gave;
      if run.Went(m) {
        MarksStep(run, m, a);
      } else {
        forall k, r ensures !Gave(run, m, a, k, r) { GaveIs(run, m, a, k, r); }
        forall k, r ensures LastGiven(run, m, a, k, r) ==> LastGiven(run, n, a, k, r) { GivenStep(run, m, a, k, r); }
      }
    }
  }

  lemma GaveIs(run: Trail, i: nat, a: Id, k: nat, r: StepResult)
    ensures Gave(run, i, a, k, r) <==> run.Went(i) && run.calls[i].1 == Call.SetStepResult(a, k, Some(r))
  {
    hide Perform;
  }

  lemma MarksStep(run: Trail, m: nat, a: Id)
    requires m < |run.calls| && run.Went(m) && MarksAsGiven(run, m, a) && Inv(run.At(m))
    requires Perform(run.At(m), run.calls[m].0, run.calls[m].1) == Ok(run.At(m + 1))
    ensures MarksAsGiven(run, m + 1, a)
  {
    hide Inv, Perform, LastGiven, Gave;
    var db, next, now, call := run.At(m), run.At(m + 1), run.calls[m].0, run.calls[m].1;
    AttemptsAreTouched(db, now, call, next);
    forall k, r
      ensures Gave(run, m, a, k, r) <==> call == Call.SetStepResult(a, k, Some(r))
      ensures LastGiven(run, m, a, k, r) && (forall q :: !Gave(run, m, a, k, q)) ==> LastGiven(run, m + 1, a, k, r)
      ensures Gave(run, m, a, k, r) ==> LastGiven(run, m + 1, a, k, r)
    {
      GivenStep(run, m, a, k, r);
      GaveIs(run, m, a, k, r);
    }
    if call.SetStepResult? && call.attempt == a {
      MarkStored(db, now, a, call.index, call.result, next);
    } else if a in db.attempts {
      if TouchesAttempt(call, a) {
        EndKeepsMarks(db, now, call, next, a);
      }
    } else {
      assert NoneGiven(run, m + 1, a);
      if a in next.attempts {
        forall i | 0 <= i < |next.attempts[a].steps|
          ensures LastGiven(run, m + 1, a, i + 1, next.attempts[a].steps[i].result)
        {
          NotRunYet(run, m + 1, a, i + 1);
        }
      }
    }
  }

  // ------------------------------------------------------------------ how an attempt ended

  /** The i-th call completed or aborted a. */
  ghost predicate Ends(run: Trail, i: nat, a: Id) {
    run.Went(i) && EndsIt(run.calls[i].1, a)
  }

  predicate EndsIt(call: Call, a: Id) {
    (call.CompleteAttempt? && call.attempt == a) || (call.AbortAttempt? && call.attempt == a)
  }

  ghost predicate RequiredGiven(run: Trail, n: nat, a: Id, steps: seq<StepMark>, r: StepResult) {
    exists i :: 0 <= i < |steps| && steps[i].text.required && LastGiven(run, n, a, i + 1, r)
  }

  /** The worst of what the tester last gave the required steps: failed before blocked, and
      passed only when all of them were passed or skipped. */
  ghost predicate WorstGiven(run: Trail, n: nat, a: Id, steps: seq<StepMark>, v: Verdict) {
    && (v.Failed? || v.Blocked? || v.Passed?)
    && !RequiredGiven(run, n, a, steps, StepNotRun)
    && (v.Failed? <==> RequiredGiven(run, n, a, steps, StepFailed))
    && (v.Blocked? <==> !RequiredGiven(run, n, a, steps, StepFailed) && RequiredGiven(run, n, a, steps, StepBlocked))
  }

  /** The row has what this ending call decided. */
  ghost predicate EndedBy(run: Trail, n: nat, i: nat, a: Id, row: Attempt)
    requires i < |run.calls|
  {
    && row.ended == Some(run.calls[i].0) && row.overall == Some(row.status)
    && match run.calls[i].1
       case CompleteAttempt(_, Some(v), _) => row.status == v && row.overridden
       case CompleteAttempt(_, None, _) => WorstGiven(run, n, a, row.steps, row.status) && !row.overridden
       case AbortAttempt(_, _) => row.status == Aborted && !row.overridden
       case _ => false
  }

  /** The same, told by the marks the row has. */
  ghost predicate DecidedBy(now: Time, call: Call, row: Attempt) {
    && row.ended == Some(now) && row.overall == Some(row.status) && !row.status.InProgress?
    && match call
       case CompleteAttempt(_, Some(v), _) => row.status == v && row.overridden
       case CompleteAttempt(_, None, _) => row.status == EX.DeriveOverallResult(row.steps) && !row.overridden
       case AbortAttempt(_, _) => row.status == Aborted && !row.overridden
       case _ => false
  }

  ghost predicate StillAsIt(before: Attempt, after: Attempt) {
    && after == before.(steps := after.steps, corrections := after.corrections)
    && (Terminal(before.status) ==> after.steps == before.steps)
  }

  lemma EndStep(db: Db, now: Time, call: Call, next: Db, a: Id)
    requires Inv(db) && Perform(db, now, call) == Ok(next) && a in db.attempts
    ensures a in next.attempts
    ensures EndsIt(call, a) ==> db.attempts[a].status.InProgress? && !next.attempts[a].status.InProgress?
    ensures EndsIt(call, a) && !db.attempts[a].overridden ==> DecidedBy(now, call, next.attempts[a])
    ensures !EndsIt(call, a) ==> StillAsIt(db.attempts[a], next.attempts[a])
  {
    hide Inv, Perform, DecidedBy;
    AttemptsAreTouched(db, now, call, next);
    if TouchesAttempt(call, a) {
      match call
      case CompleteAttempt(_, over, reason) => CompletionDecides(db, now, a, over, reason, next);
      case AbortAttempt(_, reason) => AbortDecides(db, now, a, reason, next);
      case SetStepResult(_, k, r) => MarkDecidesNothing(db, now, a, k, r, next);
      case CorrectAttempt(_, field, v, reason) => CorrectionDecidesNothing(db, now, a, field, v, reason, next);
    }
  }

  lemma CompletionDecides(db: Db, now: Time, a: Id, over: Option<Verdict>, reason: bool, next: Db)
    requires Perform(db, now, Call.CompleteAttempt(a, over, reason)) == Ok(next) && a in db.attempts
    ensures a in next.attempts && db.attempts[a].status.InProgress? && !next.attempts[a].status.InProgress?
    ensures !db.attempts[a].overridden ==> DecidedBy(now, Call.CompleteAttempt(a, over, reason), next.attempts[a])
  {
    hide EX.RequiredMark;
  }

  lemma AbortDecides(db: Db, now: Time, a: Id, reason: bool, next: Db)
    requires Perform(db, now, Call.AbortAttempt(a, reason)) == Ok(next) && a in db.attempts
    ensures a in next.attempts && db.attempts[a].status.InProgress? && !next.attempts[a].status.InProgress?
    ensures !db.attempts[a].overridden ==> DecidedBy(now, Call.AbortAttempt(a, reason), next.attempts[a])
  {}

  lemma MarkDecidesNothing(db: Db, now: Time, a: Id, k: nat, r: Option<StepResult>, next: Db)
    requires Perform(db, now, Call.SetStepResult(a, k, r)) == Ok(next) && a in db.attempts
    ensures a in next.attempts && StillAsIt(db.attempts[a], next.attempts[a])
  {
    hide EX.StepAt;
  }

  lemma CorrectionDecidesNothing(db: Db, now: Time, a: Id, field: string, v: Verdict, reason: bool, next: Db)
    requires Perform(db, now, Call.CorrectAttempt(a, field, v, reason)) == Ok(next) && a in db.attempts
    ensures a in next.attempts && StillAsIt(db.attempts[a], next.attempts[a])
  {}

  /** Open as long as no call has ended it; then as the ending call decided. */
  ghost predicate EndsAsDecided(run: Trail, n: nat, a: Id)
    requires n <= |run.calls|
  {
    && (a !in run.At(n).attempts || run.At(n).attempts[a].status.InProgress? <==> NothingEnds(run, n, a))
    && (a in run.At(n).attempts && run.At(n).attempts[a].status.InProgress? ==> !run.At(n).attempts[a].overridden)
    && (a in run.At(n).attempts && !run.At(n).attempts[a].status.InProgress? ==>
          exists i :: 0 <= i < n && Ends(run, i, a) && DecidedBy(run.calls[i].0, run.calls[i].1, run.At(n).attempts[a]))
  }

  ghost predicate NothingEnds(run: Trail, n: nat, a: Id) {
    forall i :: 0 <= i < n ==> !Ends(run, i, a)
  }

  lemma {:induction false} EndIsDecided(run: Trail, n: nat, a: Id)
    requires n <= |run.calls|
    ensures EndsAsDecided(run, n, a)
  {
    hide Inv, Grows, Perform, DecidedBy;
    if n == 0 {
      StartsEmpty(run);
    } else {
      var m := n - 1;
      EndIsDecided(run, m, a);
      NextAt(run, m);
      NextBy(run, m);
      if run.Went(m) {
        DecidedStep(run, m, a);
      }
    }
  }

  lemma DecidedStep(run: Trail, m: nat, a: Id)
    requires m < |run.calls| && run.Went(m) && EndsAsDecided(run, m, a) && Inv(run.At(m))
    requires Perform(run.At(m), run.calls[m].0, run.calls[m].1) == Ok(run.At(m + 1))
    ensures EndsAsDecided(run, m + 1, a)
  {
    hide Inv, Perform, DecidedBy;
    var db, next, now, call := run.At(m), run.At(m + 1), run.calls[m].0, run.calls[m].1;
    AttemptsAreTouched(db, now, call, next);
    EndsKnown(db, now, call, next, a);
    assert Ends(run, m, a) <==> EndsIt(call, a);
    assert NothingEnds(run, m + 1, a) <==> NothingEnds(run, m, a) && !Ends(run, m, a);
    hide Ends;
    if a in db.attempts {
      EndStep(db, now, call, next, a);
      StatusKnown(db, a);
      if !db.attempts[a].status.InProgress? {
        var i :| 0 <= i < m && Ends(run, i, a) && DecidedBy(run.calls[i].0, run.calls[i].1, db.attempts[a]);
        DecisionStays(run.calls[i].0, run.calls[i].1, db.attempts[a], next.attempts[a]);
      }
    }
  }

  lemma DecisionStays(now: Time, call: Call, before: Attempt, after: Attempt)
    requires DecidedBy(now, call, before) && StillAsIt(before, after) && after.steps == before.steps
    ensures DecidedBy(now, call, after)
  {
    hide EX.DeriveOverallResult;
  }

  lemma StatusKnown(db: Db, a: Id)
    requires Inv(db) && a in db.attempts
    ensures db.attempts[a].status.InProgress? <==> !Terminal(db.attempts[a].status)
  {
    hide RepositoryOk, HistoriesOk, CyclesOk, TestsOk, LiveOnce, OneOpen, RetestsOk, Below;
    assert AttemptOk(db.cycles, db.tests, db.attempts[a]);
  }

  lemma EndsKnown(db: Db, now: Time, call: Call, next: Db, a: Id)
    requires Perform(db, now, call) == Ok(next)
    ensures EndsIt(call, a) ==> a in db.attempts
  {
    hide EX.DeriveOverallResult;
  }

  // ------------------------------------------------------------------ the theorems

  /** An attempt is open exactly while no call has ended it; a finished one has the status,
      the time and the override that the one call that ended it gave it.  Completed without
      an override, it has the worst of the marks the tester last gave to the required steps. */
  lemma VerdictIsAsCalled(run: Trail, n: nat, a: Id)
    requires n <= |run.calls| && a in run.At(n).attempts
    ensures var row := run.At(n).attempts[a];
      && (row.status.InProgress? <==> NothingEnds(run, n, a))
      && (!row.status.InProgress? ==> exists i :: 0 <= i < n && Ends(run, i, a) && EndedBy(run, n, i, a, row))
  {
    hide Inv, Grows, Perform, DecidedBy, EndedBy, LastGiven;
    EndIsDecided(run, n, a);
    MarksAreLastGiven(run, n, a);
    var row := run.At(n).attempts[a];
    if !row.status.InProgress? {
      var i :| 0 <= i < n && Ends(run, i, a) && DecidedBy(run.calls[i].0, run.calls[i].1, row);
      DecidedIsGiven(run, n, i, a, row);
    }
  }

  lemma DecidedIsGiven(run: Trail, n: nat, i: nat, a: Id, row: Attempt)
    requires i < n <= |run.calls| && MarksAsGiven(run, n, a) && a in run.At(n).attempts && row == run.At(n).attempts[a]
    requires DecidedBy(run.calls[i].0, run.calls[i].1, row) && !row.status.InProgress?
    ensures EndedBy(run, n, i, a, row)
  {
    hide LastGiven, RequiredGiven, EX.DeriveOverallResult;
    DerivedIsWorstGiven(run, n, a, row.steps);
  }

  lemma DerivedIsWorstGiven(run: Trail, n: nat, a: Id, steps: seq<StepMark>)
    requires forall i :: 0 <= i < |steps| ==> LastGiven(run, n, a, i + 1, steps[i].result)
    ensures var d := EX.DeriveOverallResult(steps); !d.InProgress? ==> WorstGiven(run, n, a, steps, d)
  {
    hide LastGiven, EX.RequiredMark, RequiredGiven;
    forall r ensures RequiredGiven(run, n, a, steps, r) <==> EX.RequiredMark(steps, r) {
      GivenIsMarked(run, n, a, steps, r);
    }
  }

  lemma GivenIsMarked(run: Trail, n: nat, a: Id, steps: seq<StepMark>, r: StepResult)
    requires forall i :: 0 <= i < |steps| ==> LastGiven(run, n, a, i + 1, steps[i].result)
    ensures RequiredGiven(run, n, a, steps, r) <==> EX.RequiredMark(steps, r)
  {
    forall i | 0 <= i < |steps| && LastGiven(run, n, a, i + 1, r) ensures steps[i].result == r {
      LastGivenOnce(run, n, a, i + 1, r, steps[i].result);
    }
    hide LastGiven;
    if EX.RequiredMark(steps, r) {
      var i :| 0 <= i < |steps| && steps[i].text.required && steps[i].result == r;
      assert LastGiven(run, n, a, i + 1, r);
    }
  }

  // ------------------------------------------------------------------ how an attempt began

  /** The i-th call started a: what the row says of its test, its text and where it ran is what
      the tables said then. */
  ghost predicate StartedAt(run: Trail, i: nat, a: Id, row: Attempt) {
    && run.Went(i) && run.calls[i].1.StartAttempt? && run.At(i).nextId == a
    && var db, t := run.At(i), run.calls[i].1.test;
       && t in db.tests && db.tests[t].cycleId in db.cycles
       && row.testId == t && row.cycleId == db.tests[t].cycleId && row.project == db.tests[t].project
       && Some(row.versionId) == db.tests[t].versionId && Texts(row.steps) == db.tests[t].steps
       && row.context == db.cycles[db.tests[t].cycleId].context && row.started == run.calls[i].0
  }

  lemma {:induction false} AttemptTellsItsStart(run: Trail, n: nat, a: Id)
    requires n <= |run.calls| && a in run.At(n).attempts
    ensures exists i :: 0 <= i < n && StartedAt(run, i, a, run.At(n).attempts[a])
  {
    hide Inv, Grows, Perform, StartedAt;
    if n == 0 {
      StartsEmpty(run);
    } else {
      var m := n - 1;
      NextAt(run, m);
      NextBy(run, m);
      var db, next := run.At(m), run.At(n);
      if a in db.attempts {
        AttemptTellsItsStart(run, m, a);
        var i :| 0 <= i < m && StartedAt(run, i, a, db.attempts[a]);
        AttemptStays(db, next, a);
        StartStays(run, i, a, db.attempts[a], next.attempts[a]);
      } else {
        AttemptsAreTouched(db, run.calls[m].0, run.calls[m].1, next);
        StartHere(run, m, a);
      }
    }
  }

  lemma AttemptStays(db: Db, next: Db, a: Id)
    requires Grows(db, next) && a in db.attempts
    ensures a in next.attempts && AttemptKept(db.attempts[a], next.attempts[a])
  {
    hide VersionsKept, OldContentKept, CasesKept, CyclesKept, TestsKept, ReleasesKept, AttemptKept;
  }

  lemma StartStays(run: Trail, i: nat, a: Id, before: Attempt, after: Attempt)
    requires StartedAt(run, i, a, before) && AttemptKept(before, after)
    ensures StartedAt(run, i, a, after)
  {
    hide Perform;
  }

  lemma StartHere(run: Trail, m: nat, a: Id)
    requires m < |run.calls| && run.Went(m) && a in run.At(m + 1).attempts && a !in run.At(m).attempts
    requires AttemptsTouched(run.At(m), run.calls[m].0, run.calls[m].1, run.At(m + 1))
    ensures StartedAt(run, m, a, run.At(m + 1).attempts[a])
  {
    hide Perform;
  }

  /** Some start of t among the first n calls has not been ended since. */
  ghost predicate RunningFor(run: Trail, n: nat, t: Id) {
    exists i :: 0 <= i < n && StillRuns(run, n, i, t)
  }

  ghost predicate StillRuns(run: Trail, n: nat, i: nat, t: Id) {
    run.Did(i, Call.StartAttempt(t)) && forall j :: i < j < n ==> !Ends(run, j, run.At(i).nextId)
  }

  /** A test has an open attempt exactly when one was started on it and not ended since. */
  lemma OpenExactly(run: Trail, n: nat, t: Id)
    requires n <= |run.calls|
    ensures HasOpenAttempt(run.At(n).attempts, t) <==> RunningFor(run, n, t)
  {
    hide Inv, Grows, Perform, Ends;
    if HasOpenAttempt(run.At(n).attempts, t) {
      var a :| a in run.At(n).attempts && OpenOn(run.At(n).attempts[a], t);
      AttemptTellsItsStart(run, n, a);
      VerdictIsAsCalled(run, n, a);
      var i :| 0 <= i < n && StartedAt(run, i, a, run.At(n).attempts[a]);
      assert StillRuns(run, n, i, t);
    }
    if RunningFor(run, n, t) {
      var i :| 0 <= i < n && StillRuns(run, n, i, t);
      RunningIsOpen(run, n, i, t);
    }
  }

  lemma RunningIsOpen(run: Trail, n: nat, i: nat, t: Id)
    requires i < n <= |run.calls| && StillRuns(run, n, i, t)
    ensures run.At(i).nextId in run.At(n).attempts && OpenOn(run.At(n).attempts[run.At(i).nextId], t)
  {
    hide Inv, Grows, Perform, Ends;
    var a := run.At(i).nextId;
    NextAt(run, i);
    NextBy(run, i);
    AttemptsAreTouched(run.At(i), run.calls[i].0, run.calls[i].1, run.At(i + 1));
    assert JustStarted(run.At(i), run.calls[i].0, t, run.At(i + 1).attempts[a]);
    VerdictIsAsCalled(run, i + 1, a);
    AtGrows(run, i + 1, n);
    AttemptStays(run.At(i + 1), run.At(n), a);
    hide StillRuns, AttemptsTouched;
    assert NothingEnds(run, n, a) by { assert StillRuns(run, n, i, t); }
    VerdictIsAsCalled(run, n, a);
  }

  ghost predicate EverStarted(run: Trail, n: nat, t: Id) {
    exists i :: 0 <= i < n && run.Did(i, Call.StartAttempt(t))
  }

  /** A test has attempts exactly when one was started on it. */
  lemma AttemptedExactly(run: Trail, n: nat, t: Id)
    requires n <= |run.calls|
    ensures HasAttempt(run.At(n).attempts, t) <==> EverStarted(run, n, t)
  {
    hide Inv, Grows, Perform;
    if a :| a in run.At(n).attempts && run.At(n).attempts[a].testId == t {
      AttemptTellsItsStart(run, n, a);
      var i :| 0 <= i < n && StartedAt(run, i, a, run.At(n).attempts[a]);
      assert run.Did(i, Call.StartAttempt(t));
    }
    if i :| 0 <= i < n && run.Did(i, Call.StartAttempt(t)) {
      var a := run.At(i).nextId;
      NextAt(run, i);
      NextBy(run, i);
      AttemptsAreTouched(run.At(i), run.calls[i].0, run.calls[i].1, run.At(i + 1));
      assert JustStarted(run.At(i), run.calls[i].0, t, run.At(i + 1).attempts[a]);
      AtGrows(run, i + 1, n);
      AttemptStays(run.At(i + 1), run.At(n), a);
    }
  }

  // ------------------------------------------------------------------ corrections

  /** The values and times of the corrections of a among the first n calls, in order. */
  ghost function CorrectionsMade(run: Trail, n: nat, a: Id): seq<(Verdict, Time)> {
    if n == 0 then []
    else
      CorrectionsMade(run, n - 1, a)
      + if run.Went(n - 1) && run.calls[n - 1].1.CorrectAttempt? && run.calls[n - 1].1.attempt == a
        then [(run.calls[n - 1].1.newValue, run.calls[n - 1].0)]
        else []
  }

  function CorrectionsOf(row: Attempt): seq<(Verdict, Time)> {
    seq(|row.corrections|,
        i requires 0 <= i < |row.corrections| => (row.corrections[i].newValue, row.corrections[i].at))
  }

  /** An attempt lists exactly the corrections that were made, in order. */
  lemma {:induction false} CorrectionsAreMade(run: Trail, n: nat, a: Id)
    requires n <= |run.calls|
    ensures a in run.At(n).attempts ==> CorrectionsOf(run.At(n).attempts[a]) == CorrectionsMade(run, n, a)
    ensures a !in run.At(n).attempts ==> CorrectionsMade(run, n, a) == []
  {
    hide Inv, Grows, Perform, CorrectionsOf;
    if n == 0 {
      StartsEmpty(run);
    } else {
      var m := n - 1;
      CorrectionsAreMade(run, m, a);
      NextAt(run, m);
      NextBy(run, m);
      if run.Went(m) {
        var db, next, now, call := run.At(m), run.At(n), run.calls[m].0, run.calls[m].1;
        AttemptsAreTouched(db, now, call, next);
        if TouchesAttempt(call, a) || (a in next.attempts && a !in db.attempts) {
          CorrectionStep(db, now, call, next, a);
        }
      }
    }
  }

  lemma CorrectionStep(db: Db, now: Time, call: Call, next: Db, a: Id)
    requires Perform(db, now, call) == Ok(next) && AttemptsTouched(db, now, call, next)
    requires TouchesAttempt(call, a) || (a in next.attempts && a !in db.attempts)
    ensures a in next.attempts
    ensures call.CorrectAttempt? ==>
              && a in db.attempts
              && CorrectionsOf(next.attempts[a]) == CorrectionsOf(db.attempts[a]) + [(call.newValue, now)]
    ensures !call.CorrectAttempt? ==>
              CorrectionsOf(next.attempts[a]) == if a in db.attempts then CorrectionsOf(db.attempts[a]) else []
  {
    hide EX.DeriveOverallResult, EX.StepAt, HasOpenAttempt;
  }

  // ------------------------------------------------------------------ what is accepted

  ghost predicate Running(db: Db, t: Id) {
    t in db.tests && db.tests[t].cycleId in db.cycles
    && (db.cycles[db.tests[t].cycleId].status.Active? || db.cycles[db.tests[t].cycleId].status.Reopened?)
  }

  /** Whether the n-th call, if it were this one, would be accepted, told from the calls. */
  ghost predicate Accepts(run: Trail, n: nat, call: Call)
    requires n <= |run.calls|
  {
    match call
    case StartAttempt(t) => Running(run.At(n), t) && run.At(n).tests[t].versionId.Some? && !RunningFor(run, n, t)
    case SetStepResult(a, k, r) =>
      a in run.At(n).attempts && NothingEnds(run, n, a) && r.Some? && 1 <= k <= |run.At(n).attempts[a].steps|
    case CompleteAttempt(a, None, _) =>
      && a in run.At(n).attempts && NothingEnds(run, n, a)
      && !RequiredGiven(run, n, a, run.At(n).attempts[a].steps, StepNotRun)
    case CompleteAttempt(a, Some(v), reason) =>
      a in run.At(n).attempts && NothingEnds(run, n, a) && Terminal(v) && reason
    case AbortAttempt(a, reason) => a in run.At(n).attempts && NothingEnds(run, n, a) && reason
    case RequestRetest(t) =>
      && t in run.At(n).tests
      && exists a :: a in run.At(n).attempts && run.At(n).attempts[a].testId == t && !NothingEnds(run, n, a)
    case CorrectAttempt(a, field, v, reason) =>
      a in run.At(n).attempts && !NothingEnds(run, n, a) && field == "overall_result" && Terminal(v) && reason
    case _ => false
  }

  /** A call on an attempt is accepted exactly when the calls before it make it possible: an
      attempt is started where none runs, marked and ended while it runs, completed without an
      override once every required step has a mark, and corrected or repeated once it ended. */
  lemma AcceptedExactly(run: Trail, n: nat, now: Time, call: Call)
    requires n <= |run.calls| && ExecutionCall(call)
    ensures Perform(run.At(n), now, call).Ok? <==> Accepts(run, n, call)
  {
    hide Inv, NothingEnds, RunningFor, RequiredGiven, Perform, Terminal;
    var db := run.At(n);
    AtInv(run, n);
    forall a | a in db.attempts
      ensures db.attempts[a].status.InProgress? <==> NothingEnds(run, n, a)
      ensures Terminal(db.attempts[a].status) <==> !NothingEnds(run, n, a)
      ensures db.attempts[a].testId in db.tests
    {
      VerdictIsAsCalled(run, n, a);
      StatusKnown(db, a);
      TestKnown(db, a);
    }
    match call
    case StartAttempt(t) =>
      OpenExactly(run, n, t);
      StartAccepts(db, now, t);
    case SetStepResult(a, k, r) => MarkAccepts(db, now, a, k, r);
    case CompleteAttempt(a, over, reason) =>
      if a in db.attempts {
        MarksAreLastGiven(run, n, a);
        GivenIsMarked(run, n, a, db.attempts[a].steps, StepNotRun);
      }
      CompletionAccepts(db, now, a, over, reason);
    case AbortAttempt(a, reason) => AbortAccepts(db, now, a, reason);
    case RequestRetest(t) => RetestAccepts(db, now, t);
    case CorrectAttempt(a, field, v, reason) => CorrectionAccepts(db, now, a, field, v, reason);
  }

  lemma TestKnown(db: Db, a: Id)
    requires Inv(db) && a in db.attempts
    ensures db.attempts[a].testId in db.tests
  {
    hide RepositoryOk, HistoriesOk, CyclesOk, TestsOk, LiveOnce, OneOpen, RetestsOk, Below;
    assert AttemptOk(db.cycles, db.tests, db.attempts[a]);
  }

  lemma StartAccepts(db: Db, now: Time, t: Id)
    ensures Perform(db, now, Call.StartAttempt(t)).Ok? <==>
              Running(db, t) && db.tests[t].versionId.Some? && !HasOpenAttempt(db.attempts, t)
  {
    hide HasOpenAttempt, FreshMarks;
  }

  lemma MarkAccepts(db: Db, now: Time, a: Id, k: nat, r: Option<StepResult>)
    requires Inv(db)
    ensures Perform(db, now, Call.SetStepResult(a, k, r)).Ok? <==>
              && a in db.attempts && db.attempts[a].status.InProgress? && r.Some?
              && 1 <= k <= |db.attempts[a].steps|
  {
    hide Inv, Perform, EX.StepAt;
    if a in db.attempts {
      TestKnown(db, a);
      MarkPlace(db, a, k);
    }
    MarkAcceptsAt(db, now, a, k, r);
  }

  lemma MarkPlace(db: Db, a: Id, k: nat)
    requires Inv(db) && a in db.attempts
    ensures EX.StepAt(db.attempts[a].steps, k) ==
              if 1 <= k <= |db.attempts[a].steps| then k - 1 else |db.attempts[a].steps|
  {
    hide HistoriesOk, LiveOnce, OneOpen, RetestsOk, CyclesOk, Below, TC.Numbered, RepositoryOk, TestsOk, AttemptsOk,
      EX.StepAt;
    AttemptNumbered(db, a);
    NumberedPlace(db.attempts[a].steps, k);
  }

  lemma MarkAcceptsAt(db: Db, now: Time, a: Id, k: nat, r: Option<StepResult>)
    requires a in db.attempts ==> db.attempts[a].testId in db.tests
    requires a in db.attempts ==>
               EX.StepAt(db.attempts[a].steps, k) ==
                 if 1 <= k <= |db.attempts[a].steps| then k - 1 else |db.attempts[a].steps|
    ensures Perform(db, now, Call.SetStepResult(a, k, r)).Ok? <==>
              && a in db.attempts && db.attempts[a].status.InProgress? && r.Some?
              && 1 <= k <= |db.attempts[a].steps|
  {
    hide EX.StepAt;
  }

  lemma CompletionAccepts(db: Db, now: Time, a: Id, over: Option<Verdict>, reason: bool)
    requires a in db.attempts ==> db.attempts[a].testId in db.tests
    ensures Perform(db, now, Call.CompleteAttempt(a, over, reason)).Ok? <==>
              && a in db.attempts && db.attempts[a].status.InProgress?
              && match over
                 case None => !EX.RequiredMark(db.attempts[a].steps, StepNotRun)
                 case Some(v) => Terminal(v) && reason
  {}

  lemma AbortAccepts(db: Db, now: Time, a: Id, reason: bool)
    requires a in db.attempts ==> db.attempts[a].testId in db.tests
    ensures Perform(db, now, Call.AbortAttempt(a, reason)).Ok? <==>
              a in db.attempts && db.attempts[a].status.InProgress? && reason
  {}

  lemma RetestAccepts(db: Db, now: Time, t: Id)
    ensures Perform(db, now, Call.RequestRetest(t)).Ok? <==> t in db.tests && HasFinishedAttempt(db.attempts, t)
  {}

  lemma CorrectionAccepts(db: Db, now: Time, a: Id, field: string, v: Verdict, reason: bool)
    ensures Perform(db, now, Call.CorrectAttempt(a, field, v, reason)).Ok? <==>
              && a in db.attempts && Terminal(db.attempts[a].status)
              && field == "overall_result" && Terminal(v) && reason
  {}
}
