/** The resolver refines a last-writer register: over any run with a strictly increasing clock
    the attempt it picks is the one the latest complete, abort or correct call went to. */
module Register {
  import opened Common
  import opened Tables
  import opened Evidence
  import opened Preservation
  import opened Runs
  import opened Resolver
  import opened Ledger
  import opened ExecutionHistory
  import EX = Execution

  /** What a result event leaves behind: which attempt, which result, when. */
  datatype Entry = Entry(attempt: Id, value: Verdict, at: Time)

  /** The result event a call amounts to, if it is one and succeeds. */
  ghost function Event(db: Db, now: Time, call: Call): Option<Entry> {
    if Perform(db, now, call).Err? then None
    else
      match call
      case CompleteAttempt(a, over, _) =>
        if a in db.attempts then
          Some(Entry(a, if over.Some? then over.value else EX.DeriveOverallResult(db.attempts[a].steps), now))
        else None
      case AbortAttempt(a, _) => Some(Entry(a, Aborted, now))
      case CorrectAttempt(a, _, value, _) => Some(Entry(a, value, now))
      case _ => None
  }

  /** One cell a cycle test, overwritten by every result event on it. */
  ghost function Cells(db: Db, calls: History): map<Id, Entry>
    decreases |calls|
  {
    if calls == [] then map[]
    else
      var mid := Run(db, calls[..|calls| - 1]);
      Written(mid, Cells(db, calls[..|calls| - 1]), calls[|calls| - 1].0, calls[|calls| - 1].1)
  }

  ghost function Written(db: Db, cells: map<Id, Entry>, now: Time, call: Call): map<Id, Entry> {
    match Event(db, now, call)
    case None => cells
    case Some(e) => if e.attempt in db.attempts then cells[db.attempts[e.attempt].testId := e] else cells
  }

  ghost predicate StrictlyIncreasing(calls: History) {
    forall i, j :: 0 <= i < j < |calls| ==> calls[i].0 < calls[j].0
  }

  // ------------------------------------------------------------------ the simulation relation

  /** The cell of `t` is the latest event recorded in the attempt rows of `t`. */
  ghost predicate CellOk(attempts: map<Id, Attempt>, t: Id, e: Entry, clock: Time) {
    && e.attempt in attempts && FinishedOn(attempts[e.attempt], t)
    && LastEvent(attempts[e.attempt]) == e.at <= clock
    && Effective(attempts[e.attempt]) == e.value
    && forall b :: b in attempts && FinishedOn(attempts[b], t) && b != e.attempt ==> LastEvent(attempts[b]) < e.at
  }

  ghost predicate CellsOk(attempts: map<Id, Attempt>, cells: map<Id, Entry>, clock: Time) {
    && (forall t :: t in cells ==> CellOk(attempts, t, cells[t], clock))
    && (forall a :: a in attempts && Terminal(attempts[a].status) ==> attempts[a].testId in cells)
  }

  /** Both tables have the same finished rows. */
  ghost predicate SameFinished(before: map<Id, Attempt>, after: map<Id, Attempt>) {
    && (forall a :: a in before && Terminal(before[a].status) ==> a in after && after[a] == before[a])
    && (forall a :: a in after && Terminal(after[a].status) ==> a in before && after[a] == before[a])
  }

  lemma CellsFramed(before: map<Id, Attempt>, after: map<Id, Attempt>, cells: map<Id, Entry>, clock: Time, now: Time)
    requires CellsOk(before, cells, clock) && SameFinished(before, after) && clock <= now
    ensures CellsOk(after, cells, now)
  {}

  lemma NoEventSameFinished(db: Db, now: Time, call: Call)
    requires Inv(db) && Event(db, now, call).None?
    ensures SameFinished(db.attempts, Apply(db, now, call).attempts)
  {
    hide Perform, RepositoryOk, HistoriesOk, CyclesOk, TestsOk, LiveOnce, OneOpen, AttemptsOk, RetestsOk, Below;
    if ExecutionCall(call) {
      ExecutionNoEvent(db, now, call);
    } else if Perform(db, now, call).Ok? {
      OtherTablesStay(db, now, call, Perform(db, now, call).value);
    }
  }

  lemma ExecutionNoEvent(db: Db, now: Time, call: Call)
    requires Below(db.attempts, db.nextId) && Event(db, now, call).None? && ExecutionCall(call)
    ensures SameFinished(db.attempts, Apply(db, now, call).attempts)
  {
    hide EX.StartAttempt, EX.SetStepResult, EX.CompleteAttempt, EX.AbortAttempt, EX.RequestRetest, EX.CorrectAttempt,
      SameFinished, Below;
    if Perform(db, now, call).Err? {
      SameAttempts(db.attempts);
    } else {
      var next := Perform(db, now, call).value;
      match call
      case StartAttempt(t) => StartFinishesNothing(db, now, t, next);
      case SetStepResult(a, index, result) => MarkFinishesNothing(db, a, index, result, next);
      case RequestRetest(t) => RetestFinishesNothing(db, t, next);
      case CompleteAttempt(a, over, reason) => EndNeedsRow(db, now, call, next);
      case _ =>
    }
  }

  lemma SameAttempts(attempts: map<Id, Attempt>)
    ensures SameFinished(attempts, attempts)
  {}

  lemma StartFinishesNothing(db: Db, now: Time, t: Id, next: Db)
    requires Below(db.attempts, db.nextId) && EX.StartAttempt(db, now, t) == Ok(next)
    ensures SameFinished(db.attempts, next.attempts)
  {}

  lemma MarkFinishesNothing(db: Db, a: Id, index: nat, result: Option<StepResult>, next: Db)
    requires EX.SetStepResult(db, a, index, result) == Ok(next)
    ensures SameFinished(db.attempts, next.attempts)
  {}

  lemma RetestFinishesNothing(db: Db, t: Id, next: Db)
    requires EX.RequestRetest(db, t) == Ok(next)
    ensures SameFinished(db.attempts, next.attempts)
  {}

  /** A completion that succeeds names a row, so it is an event. */
  lemma EndNeedsRow(db: Db, now: Time, call: Call, next: Db)
    requires call.CompleteAttempt? && Perform(db, now, call) == Ok(next)
    ensures Event(db, now, call).Some?
  {
    hide EX.DeriveOverallResult;
  }

  /** What an event does to the attempt rows: one row of the test gets the value, now. */
  ghost predicate Recorded(before: map<Id, Attempt>, e: Entry, after: map<Id, Attempt>) {
    && e.attempt in before && e.attempt in after
    && after == before[e.attempt := after[e.attempt]]
    && FinishedOn(after[e.attempt], before[e.attempt].testId)
    && LastEvent(after[e.attempt]) == e.at
    && Effective(after[e.attempt]) == e.value
  }

  lemma EventRecorded(db: Db, now: Time, call: Call, clock: Time)
    requires AttemptsOk(db.cycles, db.tests, db.attempts)
    requires forall a :: a in db.attempts && Terminal(db.attempts[a].status) ==> LastEvent(db.attempts[a]) <= clock
    requires clock < now && Event(db, now, call).Some?
    ensures Recorded(db.attempts, Event(db, now, call).value, Apply(db, now, call).attempts)
  {
    hide EX.CompleteAttempt, EX.AbortAttempt, EX.CorrectAttempt, EX.DeriveOverallResult, Recorded, LastEvent, Texts;
    EventTime(db, now, call);
    var e := Event(db, now, call).value;
    assert AttemptOk(db.cycles, db.tests, db.attempts[e.attempt]);
    hide AttemptsOk;
    var next := Perform(db, now, call).value;
    match call
    case CompleteAttempt(a, over, reason) => CompletionRecorded(db, now, a, over, reason, next);
    case AbortAttempt(a, reason) => AbortRecorded(db, now, a, reason, next);
    case CorrectAttempt(a, field, value, reason) => CorrectionRecorded(db, now, a, field, value, reason, next, clock);
    case _ =>
  }

  lemma CompletionRecorded(db: Db, now: Time, a: Id, over: Option<Verdict>, reason: bool, next: Db)
    requires EX.CompleteAttempt(db, now, a, over, reason) == Ok(next) && RowOk(db.attempts[a])
    ensures var value := if over.Some? then over.value else EX.DeriveOverallResult(db.attempts[a].steps);
      Recorded(db.attempts, Entry(a, value, now), next.attempts)
  {
    hide EX.RequiredMark;
  }

  lemma AbortRecorded(db: Db, now: Time, a: Id, reason: bool, next: Db)
    requires EX.AbortAttempt(db, now, a, reason) == Ok(next) && RowOk(db.attempts[a])
    ensures Recorded(db.attempts, Entry(a, Aborted, now), next.attempts)
  {}

  lemma CorrectionRecorded(
    db: Db, now: Time, a: Id, field: string, value: Verdict, reason: bool, next: Db, clock: Time)
    requires EX.CorrectAttempt(db, now, a, field, value, reason) == Ok(next)
    requires clock < now && (Terminal(db.attempts[a].status) ==> LastEvent(db.attempts[a]) <= clock)
    ensures Recorded(db.attempts, Entry(a, value, now), next.attempts)
  {
    CorrectionIsLatest(db.attempts[a].corrections, Correction(db.attempts[a].overall, value, now));
  }

  lemma CorrectionIsLatest(cs: seq<Correction>, c: Correction)
    requires cs == [] || Latest(cs).at < c.at
    ensures Latest(cs + [c]) == c
  {}

  lemma CellsWritten(before: map<Id, Attempt>, after: map<Id, Attempt>, cells: map<Id, Entry>, e: Entry, clock: Time)
    requires CellsOk(before, cells, clock) && clock < e.at && Recorded(before, e, after)
    ensures CellsOk(after, cells[before[e.attempt].testId := e], e.at)
  {
    hide LastEvent, Effective;
    forall t | t in cells && t != before[e.attempt].testId ensures CellOk(after, t, cells[t], e.at) {}
    assert CellOk(after, before[e.attempt].testId, e, e.at) by {
      forall b | b in before && FinishedOn(before[b], before[e.attempt].testId) && b != e.attempt
        ensures LastEvent(before[b]) < e.at
      {
        assert CellOk(before, before[b].testId, cells[before[b].testId], clock);
      }
    }
    hide CellOk;
  }

  lemma {:induction false} RegisterSimulates(projects: set<Id>, calls: History)
    requires StrictlyIncreasing(calls)
    ensures var db := Reached(projects, calls);
      calls != [] ==> CellsOk(db.attempts, Cells(EmptyDb(projects), calls), calls[|calls| - 1].0)
    ensures calls == [] ==> CellsOk(Reached(projects, calls).attempts, Cells(EmptyDb(projects), calls), 0)
    decreases |calls|
  {
    if calls == [] {
    } else {
      var prefix, last := calls[..|calls| - 1], calls[|calls| - 1];
      RegisterSimulates(projects, prefix);
      ReachedInv(projects, prefix);
      hide RepositoryOk, HistoriesOk, CyclesOk, TestsOk, LiveOnce, OneOpen, AttemptsOk, RetestsOk;
      var db, cells := Reached(projects, prefix), Cells(EmptyDb(projects), prefix);
      var clock := if prefix == [] then last.0 - 1 else prefix[|prefix| - 1].0;
      assert CellsOk(db.attempts, cells, clock);
      RegisterStep(db, cells, clock, last.0, last.1);
    }
  }

  lemma RegisterStep(db: Db, cells: map<Id, Entry>, clock: Time, now: Time, call: Call)
    requires Inv(db) && CellsOk(db.attempts, cells, clock) && clock < now
    ensures CellsOk(Apply(db, now, call).attempts, Written(db, cells, now, call), now)
  {
    hide Apply, Perform, AttemptsOk, Recorded, LastEvent, RepositoryOk, HistoriesOk, CyclesOk, TestsOk, LiveOnce,
      OneOpen, RetestsOk, Below;
    match Event(db, now, call)
    case None =>
      NoEventSameFinished(db, now, call);
      CellsFramed(db.attempts, Apply(db, now, call).attempts, cells, clock, now);
    case Some(e) =>
      forall a | a in db.attempts && Terminal(db.attempts[a].status) ensures LastEvent(db.attempts[a]) <= clock {
        assert CellOk(db.attempts, db.attempts[a].testId, cells[db.attempts[a].testId], clock);
      }
      EventRecorded(db, now, call, clock);
      EventTime(db, now, call);
      CellsWritten(db.attempts, Apply(db, now, call).attempts, cells, e, clock);
  }

  lemma EventTime(db: Db, now: Time, call: Call)
    requires Event(db, now, call).Some?
    ensures Event(db, now, call).value.at == now && Event(db, now, call).value.attempt in db.attempts
  {}

  // ------------------------------------------------------------------ the theorem

  /** After any run whose calls are stamped by a strictly increasing clock:
      - a test has an authoritative attempt just when some result event hit it, and that
        attempt is the one the latest event hit;
      - a pending retest is displayed just when one was asked for, no attempt was started
        since, and none is running;
      - otherwise what is displayed is the latest event's value, or NOT_RUN. */
  lemma ResolverIsLastWriter(projects: set<Id>, calls: History, t: Id)
    requires StrictlyIncreasing(calls) && t in Reached(projects, calls).tests
    ensures var db, run := Reached(projects, calls), Trail(projects, calls);
      && var cells := Cells(EmptyDb(projects), calls);
      && Authoritative(db.attempts, t) == (if t in cells then Some(cells[t].attempt) else None)
      && (Displayed(db, t) == RetestPending <==> RetestAsked(run, |calls|, t) && !RunningFor(run, |calls|, t))
      && (Displayed(db, t) != RetestPending ==> Displayed(db, t) == if t in cells then cells[t].value else NotRun)
  {
    var db, run := Reached(projects, calls), Trail(projects, calls);
    var cells := Cells(EmptyDb(projects), calls);
    hide RepositoryOk, HistoriesOk, CyclesOk, TestsOk, LiveOnce, OneOpen, Reached, Cells, AttemptsOk, RetestsOk,
      CellsOk, Authoritative, HasOpenAttempt, Effective, RetestAsked, RunningFor, Below;
    RetestsByCalls(projects, calls, t);
    RegisterSimulates(projects, calls);
    ReachedInv(projects, calls);
    CellsDecide(db, cells, if calls == [] then 0 else calls[|calls| - 1].0, t);
  }

  lemma RetestsByCalls(projects: set<Id>, calls: History, t: Id)
    requires t in Reached(projects, calls).tests
    ensures var db, run := Reached(projects, calls), Trail(projects, calls);
      && (db.tests[t].retest <==> RetestAsked(run, |calls|, t))
      && (HasOpenAttempt(db.attempts, t) <==> RunningFor(run, |calls|, t))
  {
    hide Reached, RetestAsked, RunningFor, HasOpenAttempt;
    var run := Trail(projects, calls);
    EndIsLast(run);
    RetestPendingExactly(run, |calls|, t);
    OpenExactly(run, |calls|, t);
  }

  lemma CellsDecide(db: Db, cells: map<Id, Entry>, clock: Time, t: Id)
    requires CellsOk(db.attempts, cells, clock) && AttemptsOk(db.cycles, db.tests, db.attempts)
    requires RetestsOk(db.tests, db.attempts) && t in db.tests
    ensures Authoritative(db.attempts, t) == (if t in cells then Some(cells[t].attempt) else None)
    ensures t in cells ==>
              && cells[t].attempt in db.attempts && Effective(db.attempts[cells[t].attempt]) == cells[t].value
              && Terminal(cells[t].value)
    ensures t !in cells ==> !db.tests[t].retest
  {
    hide Effective, LastEvent, AttemptsOk, IsAuthoritative;
    AuthoritativeExists(db.attempts, t);
    if t in cells {
      LatestCellWins(db.attempts, t, cells[t], clock);
      EffectiveIsTerminal(db, cells[t].attempt);
    }
  }

  lemma LatestCellWins(attempts: map<Id, Attempt>, t: Id, e: Entry, clock: Time)
    requires CellOk(attempts, t, e, clock)
    ensures Authoritative(attempts, t) == Some(e.attempt)
  {
    hide LastEvent;
    assert IsAuthoritative(attempts, t, e.attempt);
    AuthoritativeIs(attempts, t, e.attempt);
  }

  lemma EffectiveIsTerminal(db: Db, a: Id)
    requires AttemptsOk(db.cycles, db.tests, db.attempts) && a in db.attempts && Terminal(db.attempts[a].status)
    ensures Terminal(Effective(db.attempts[a]))
  {}

  /** In every reachable state, whatever the clock did, a displayed result is a terminal one,
      NOT_RUN or RETEST_PENDING; and the branch that shows a retest where nothing has ever
      finished is dead. */
  lemma DisplayedIsSettled(projects: set<Id>, calls: History, t: Id)
    requires t in Reached(projects, calls).tests
    ensures var db := Reached(projects, calls);
      && (Terminal(Displayed(db, t)) || Displayed(db, t) == NotRun || Displayed(db, t) == RetestPending)
      && (Displayed(db, t) == RetestPending ==> HasFinishedAttempt(db.attempts, t))
  {
    var db := Reached(projects, calls);
    ReachedInv(projects, calls);
    hide RepositoryOk, HistoriesOk, CyclesOk, TestsOk, LiveOnce, OneOpen, Reached;
    AuthoritativeExists(db.attempts, t);
    match Authoritative(db.attempts, t)
    case None =>
    case Some(a) => EffectiveIsTerminal(db, a);
  }
}
