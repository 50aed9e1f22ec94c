# TESQIVO: what its evidence, reports and access rules guarantee

TESQIVO keeps test evidence. Test cases have versions that are reviewed and approved; cycles
take a snapshot of the approved steps; attempts at a cycle test copy the snapshot and record
what the tester saw; reports are computed from all of it on every read. This project models
the backend's domain services as state machines over their tables and proves what holds in
every state that any run of calls can reach.

Every service call is one atomic step, because each service commits once. A call that raises
leaves the tables as they were. Ids come from a supply that never repeats; the moment of a call
is passed to it; a query without an ORDER BY may return its rows in any order, so every method
that reads one is proved for every order.

| file | models |
|---|---|
| `Tables.dfy`, `Common.dfy`, `Counting.dfy`, `Ordering.dfy` | the rows, and the facts about lists, counts, sums and sorting the rest uses |
| `TestCases.dfy`, `Planning.dfy`, `Execution.dfy` | each service call as a function from the state before it |
| `Evidence.dfy`, `Preservation.dfy`, `Runs.dfy` | the coupled machine, its invariant, and what every run keeps |
| `Ledger.dfy`, `CaseHistory.dfy`, `PlanningHistory.dfy`, `ExecutionHistory.dfy` | a run told from its calls: what each column says, and which call is accepted, by the calls before it |
| `Services.dfy` | the same services as statements on a session, each proved against its function |
| `Resolver.dfy`, `Register.dfy` | the authoritative result, against a register that the last event overwrites |
| `Backlog.dfy`, `Traceability.dfy`, `Boundaries.dfy`, `BacklogHistory.dfy` | requirements, scenarios, folders, releases, defects and trace links over the machine, that none crosses projects, and what the acts before made of each |
| `Metrics.dfy`, `Reporting.dfy`, `Progress.dfy`, `FigureLaws.dfy` | the thirteen metrics, the drill-down, the breakdowns, and what a call does to a figure |
| `Examples.dfy` | runs from the empty database that reach the states in which a promise fails |
| `RateLimiter.dfy` | the sliding-window limiter |
| `Worker.dfy` | the leased job queue |
| `Keys.dfy`, `KeyReuse.dfy`, `Sorting.dfy` | readable keys, when they recur, sorted lists and their pages |
| `Auth.dfy`, `AuthService.dfy`, `AccountHistory.dfy` | sign-in, lockout, sessions and password changes, and each told from the acts before it |

## Where the code and its documents disagree

The model follows the code.

- `docs/architecture/04_state_testcase_version.md` says a version is content-immutable once it
  leaves Draft, by a trigger the repository does not contain. A version in review can go back to
  draft and be edited; `Runs.RewritableExactly` gives the exact condition and
  `Examples.ReviewedThenRewritten` such a run.
- `docs/architecture/17_metric_fixtures.md` expects a pass coverage of 50% for a scope with two
  requirements. `Metrics.PassCoverageIsAllOrNothing` shows that the code can only give 0 or all
  of the denominator. The same document expects every drill-down to match its summary;
  `Metrics.PassCoverageAgreesExactly` says when that is so for M-08, and
  `Metrics.DrillDownAgrees` that it always is for the other twelve.
  `Examples.PassedInAnUnfinishedScope` and `Examples.SkippedInAGreenScope` are runs after which
  it is not. The comment above M-08 says an all-skipped requirement fails;
  `Metrics.AllSkippedCountsExactly` shows that it fails exactly when the scope is not green.
- `backend/app/domain/keys.py:1-5` says a key is never reused. Deleting an emptied project drops
  its counters, and a later project may take its key; `KeyReuse.NextKeyRecursExactly` and
  `KeyReuse.KeyCanRecurExactly` give the conditions and `KeyReuse.RequirementKeyRecurs` a run.
- A worker that is late can overwrite a finished job, its status or its finish time
  (`Worker.LateEndOverwrites` says exactly when), so a finished row is final only for workers
  that end within their lease (`Worker.FinishedIsFinal`).
- A plan can be deleted while a release still links to it. The link stays live and dangles;
  `Traceability.OnlyPlanDeletionBreaksLinks` shows it is the only kind that can.
- Lists sorted by a column other than the key may lose rows between pages when two rows tie;
  `Sorting.PagingIsSafeExactly` gives the condition and `Sorting.SortedByStatusLosesARow` two
  requirements that do.
- The limiter is meant to keep one window for each client. Two clients share one when the name
  of one is the other's followed by a colon and a path of the API
  (`RateLimiter.ClientsShareExactly`); clients known by an address never do.

## Model

| member | source | states |
|---|---|---|
| TestCases.StepsDifferExactly | backend/app/domain/test_case/service.py:420-430 | two step lists count as the same just when writing the incoming ones would reproduce the stored rows |
| TestCases.ControlledExactly | backend/app/domain/test_case/controlled_fields.py:27-30 | an edit is controlled, and so forks, exactly when it would change the content |
| Common.StripExactly | backend/app/domain/test_case/service.py:111-130 | stripping takes the blanks off both ends and nothing else |
| Execution.DerivedIsWorst | backend/app/domain/execution.py:47-61 | the derived result is the worst mark of the required steps, and passed or not run exactly in the cases the rules name |
| Preservation.PerformKeeps | backend/app/domain/execution.py:64-293 | every call keeps the whole invariant of the three modules and only lets the tables grow |
| Runs.EvidenceChain | backend/app/domain/planning.py:509-532 | in every reachable state a snapshot equals the steps of the locked version it names, and an attempt's texts and required flags equal its test's snapshot |
| Runs.EvidenceNeverDrifts | backend/app/domain/execution.py:84-116 | an attempt quotes, at every later point of any run, the text its version had when it was recorded, and keeps its run context |
| Runs.FinishedAttemptsAreImmutable | backend/app/domain/execution.py:254-293 | a finished attempt never changes again, except that corrections are appended |
| Runs.ApprovedContentIsFrozen | backend/app/domain/test_case/service.py:240-281 | from approval on, title, description, preconditions and steps of a version never change |
| Runs.ApprovalPointer | backend/app/domain/test_case/service.py:306-369 | the lock marks exactly approved and superseded versions; a version is approved exactly when its case's approved_version_id names it |
| Runs.VersionHistoryShape | backend/app/domain/test_case/service.py:433-442 | version numbers are exactly 1..n without repetition, n is current, only the current version can be a draft, steps are numbered 1..k |
| Runs.RepeatedUpdateIsIdle | backend/app/domain/test_case/service.py:203-283 | sending an identical update again changes no content and creates no version |
| Runs.RewritableExactly | backend/app/domain/test_case/service.py:240-281 | some later run can change a version's content if and only if it is current and not locked |
| Examples.ReviewedThenRewritten | backend/app/domain/test_case/service.py:240-281 | four calls from the empty database after which a version that had been in review has other content |
| Runs.CycleMachine | backend/app/domain/planning.py:372-438 | draft cycles have no attempt, completed ones no open attempt, a test at most one open attempt, a case at most one live test a cycle, and live tests of an activated cycle hold the steps of a locked version of their own case |
| Runs.LifecycleAndRetest | backend/app/domain/test_case/service.py:372-404 | approved, active and deprecated cases have an approved version; a retest is pending only where an attempt finished |
| Runs.NothingBreaks | backend/app/domain/planning.py:327-362 | no internal assertion of the services fails in a reachable state |
| Runs.AddEachExactly | backend/app/domain/planning.py:316-369 | adding a list of cases succeeds just when each is known, new to the cycle, not repeated and, in a running cycle, approved; it then adds one row for each, in order, and nothing else |
| CaseHistory.UpdateWritesColumns | backend/app/domain/test_case/service.py:203-283 | an accepted update writes each argument into its own column of the current version and leaves the other columns, in place for a draft and in a new draft if a later version would change; every other row stays |
| CaseHistory.CreateWritesColumns | backend/app/domain/test_case/service.py:124-172 | a new case and its first draft have every argument in its own column, the steps stripped and numbered from one |
| CaseHistory.DecisionWrites | backend/app/domain/test_case/service.py:323-369 | a review decision sets the status of the current version and the state of the case; approval also locks, moves the pointer and supersedes the version approved before |
| CaseHistory.ColumnsAreLastGiven | backend/app/domain/test_case/service.py:95-404 | over every run, title, description, preconditions, steps, lifecycle, version status and approved version of a case are each what the last call that gave it said |
| CaseHistory.NoUpdateIsLost | backend/app/domain/concurrency.py:12-22 | of two accepted writes to one case the later expected a greater row version, which counts the writes before it |
| CaseHistory.ReviewedIsComplete | backend/app/domain/test_case/service.py:407-417 | in every reachable state whatever has left draft has a title and a step with an action and an expected result |
| CaseHistory.WriteAcceptedExactly | backend/app/domain/test_case/service.py:306-404 | a write to a case is accepted if and only if it has seen every write before it and the calls so far left the case where that move starts |
| PlanningHistory.StatusIsLastMove | backend/app/domain/planning.py:372-438 | over every run a cycle has the status of its last move, draft before any, and its row version counts the moves |
| PlanningHistory.MoveAcceptedExactly | backend/app/domain/planning.py:372-438 | a cycle moves if and only if its earlier moves allow it, the expected version counts them, and for activation some live test exists and all can be snapshotted, for completion nothing runs, for reopening a reason is given |
| PlanningHistory.ActivatedOnce | backend/app/domain/planning.py:386-418 | no run activates a cycle twice, so its snapshots are taken once |
| PlanningHistory.ArchivedIsFinal | backend/app/domain/planning.py:372-438 | no call moves an archived cycle |
| PlanningHistory.SnapshotIsOfItsTime | backend/app/domain/planning.py:509-532 | over every run a test holds the version that was the approved one when its cycle was activated, it was added to a running cycle, or it was last refreshed, and none before |
| PlanningHistory.TestTellsItsOrigin | backend/app/domain/planning.py:260-369 | every test is of the case named for it by the call that added it, or of the live test it was cloned from |
| PlanningHistory.CloneIsWhole | backend/app/domain/planning.py:260-313 | a clone has a test for each live test of its source |
| PlanningHistory.RemovedExactly | backend/app/domain/planning.py:441-477 | over every run a test is removed if and only if some accepted call removed it |
| PlanningHistory.PlanTellsItsCall | backend/app/domain/planning.py:55-87 | a plan has the project and the release it was made with |
| PlanningHistory.CycleTellsWhereItRuns | backend/app/domain/planning.py:219-313 | over every run a cycle has the plan, release, environment and build the call that made it gave, with the plan's release, the source's values or the default words for what was left out |
| PlanningHistory.PlanAcceptedExactly | backend/app/domain/planning.py:55-213 | over every run a plan is accepted exactly in a known project with a release of it or none, and deleted exactly while no cycle is in it |
| PlanningHistory.ScopeAcceptedExactly | backend/app/domain/planning.py:219-506 | creating, cloning, removing and refreshing are accepted if and only if the calls before allow it: removal while the cycle is in use and nothing runs, a new version only if the test was never started |
| ExecutionHistory.RetestPendingExactly | backend/app/domain/execution.py:117-118 | over every run a retest is pending if and only if some accepted request for it has no accepted start after it |
| ExecutionHistory.MarksAreLastGiven | backend/app/domain/execution.py:127-156 | over every run the mark of a step is the one the last accepted call gave it, or not run |
| ExecutionHistory.VerdictIsAsCalled | backend/app/domain/execution.py:159-229 | over every run an attempt is open until a call ends it, and then has the status, time and override flag of that call; without an override the status is the worst of the marks last given to the required steps |
| ExecutionHistory.AttemptTellsItsStart | backend/app/domain/execution.py:64-124 | an attempt has the test, cycle, version, steps, context and time of the call that started it |
| ExecutionHistory.OpenExactly | backend/app/domain/execution.py:84-95 | a test has an open attempt if and only if one was started on it and not ended since |
| ExecutionHistory.CorrectionsAreMade | backend/app/domain/execution.py:254-293 | an attempt lists exactly the accepted corrections of it, in order, with their times |
| ExecutionHistory.AcceptedExactly | backend/app/domain/execution.py:64-293 | a call on an attempt is accepted if and only if the calls before it make it possible: started where none runs, marked and ended while it runs, completed once every required step was marked, corrected or repeated once it ended |
| Services.Database.UpdateTestCase | backend/app/domain/test_case/service.py:175-303 | the in-place edit leaves the tables the specification prescribes: edit a draft, fork otherwise, roll back on error |
| Services.Database.CreateTestCase | backend/app/domain/test_case/service.py:95-172 | the in-place creation meets its specification |
| Services.Database.NextVersionNumber | backend/app/domain/test_case/service.py:433-442 | the loop over the versions returns one more than the largest number |
| Services.StepsDiffer | backend/app/domain/test_case/service.py:420-430 | the early-exit comparison loop decides the specification's difference |
| Services.Database.TransitionVersion | backend/app/domain/test_case/service.py:306-369 | the in-place transition supersedes the old approved version, locks the new one and moves the pointers as specified |
| Services.Database.TransitionLifecycle | backend/app/domain/test_case/service.py:372-404 | the in-place lifecycle change meets its specification |
| Services.Database.DeletePlan | backend/app/domain/planning.py:195-213 | a plan goes exactly when no cycle uses it |
| Services.Database.CreateCycle | backend/app/domain/planning.py:219-257 | the in-place creation meets its specification, defaults included |
| Services.Database.CloneCycle | backend/app/domain/planning.py:260-313 | the loop over the source's live tests gives the specified clone for some order of them |
| Services.Database.AddCycleTests | backend/app/domain/planning.py:316-369 | the loop meets its specification and undoes its rows when a later case is refused |
| Services.Database.TransitionCycle | backend/app/domain/planning.py:372-438 | activation snapshots every live test or nothing, and the status moves as specified |
| Services.Database.SnapshotLive | backend/app/domain/planning.py:395-418 | the activation loop, in any order, snapshots all live tests or reports that some cannot be |
| Services.Database.RemoveCycleTest | backend/app/domain/planning.py:441-477 | the in-place removal meets its specification |
| Services.Database.RefreshCycleTestVersion | backend/app/domain/planning.py:480-506 | the in-place refresh meets its specification and is refused once an attempt exists |
| Services.Database.StartAttempt | backend/app/domain/execution.py:64-124 | the in-place start copies the snapshot step by step and clears the retest flag as specified |
| Services.Database.SetStepResult | backend/app/domain/execution.py:127-156 | the in-place mark meets its specification |
| Services.Database.CompleteAttempt | backend/app/domain/execution.py:159-207 | the in-place completion meets its specification, override included |
| Services.Database.AbortAttempt | backend/app/domain/execution.py:210-229 | the in-place abort meets its specification |
| Services.Database.RequestRetest | backend/app/domain/execution.py:232-251 | the in-place retest request meets its specification |
| Services.Database.CorrectAttempt | backend/app/domain/execution.py:254-293 | the in-place correction appends one entry and touches nothing else |
| Resolver.SortByKey | backend/app/domain/execution.py:350-360 | the rows come back as a permutation in which no row precedes one before it by time and id |
| Ordering.SortBy | backend/app/domain/reporting.py:469-470 | for any weak order, the insertion sort returns a permutation in order |
| Resolver.ResolveCycleTestResult | backend/app/domain/execution.py:334-380 | whatever order the rows arrive in, the result, the authoritative attempt, the open one and the count are those the rows determine |
| Resolver.AuthoritativeExists | backend/app/domain/execution.py:343-349 | there is an authoritative attempt exactly where one has finished |
| Resolver.LatestIsAuthoritative | backend/app/domain/execution.py:350-360 | among attempts last touched at one moment the later ended one is authoritative, and among those the one with the greater id |
| Register.ResolverIsLastWriter | backend/app/domain/execution.py:334-380 | with a strictly increasing clock, over any run, the sorting resolver agrees with a register that the last complete, abort or correct event overwrites; a pending retest shows exactly when one was asked for, none started since and nothing runs |
| Register.RegisterSimulates | backend/app/domain/execution.py:159-293 | the simulation behind it: after every step the register cell and the rows agree |
| Register.DisplayedIsSettled | backend/app/domain/execution.py:343-373 | a displayed result is terminal, NOT_RUN or RETEST_PENDING, and a retest never shows where nothing finished |
| BacklogServices.Session.CreateLink | backend/app/domain/traceability.py:70-129 | the in-place creation checks both ends, refuses a live duplicate and adds one row |
| BacklogServices.Session.RemoveLink | backend/app/domain/traceability.py:132-145 | the in-place removal is soft and refuses a removed link |
| BacklogServices.Session.DeleteRequirement | backend/app/domain/backlog.py:175-197 | the in-place cascade deletes the requirement's links, frees its scenarios and removes it |
| BacklogServices.Session.LinkDefect | backend/app/domain/execution.py:296-319 | the pair is listed afterwards, and a list without repetitions stays one: linking twice adds one row |
| Traceability.OnlyPlanDeletionBreaksLinks | backend/app/domain/traceability.py:57-108 | over every run of all the services, a live link fails to resolve in its project exactly when it is a release scoping a deleted plan |
| Traceability.BreakingStep | backend/app/domain/planning.py:195-213 | a step makes a resolving live link dangle if and only if it is the deletion, gone through, of the plan the link points at |
| Traceability.LiveLinksAreUnique | backend/app/domain/traceability.py:97-108 | one live link at most for a pair of ends, and only the nine legal relationships |
| Traceability.DeletedRequirementLeavesNoTrace | backend/app/domain/backlog.py:182-196 | nothing refers to a deleted requirement, every other link stays, and every link that resolved still does |
| Traceability.ShortfallIsOrphans | backend/app/domain/reporting.py:351-367 | what M-13 falls short by is the number of live links to deleted plans |
| Traceability.OrphanExample | backend/app/domain/planning.py:195-213 | a run of four calls that leaves such a link |
| Boundaries.NothingCrossesProjects | backend/app/domain/test_case/service.py:108-122 | over every run, folders, scenarios, requirements, releases and defects are named only from their own project, and a defect is linked to an attempt at most once |
| BacklogHistory.PlacesAreLastGiven | backend/app/domain/backlog.py:86-347 | over every run of all the services, requirement status and release, a scenario's requirement and archiving, a case's scenario and folder, defect and release status and link removal are each what the last act that gave it said |
| BacklogHistory.LinkTellsItsCall | backend/app/domain/traceability.py:70-129 | a link has the ends its call named, in one of the nine relationships, by the types it joins |
| BacklogHistory.LinkAcceptedExactly | backend/app/domain/traceability.py:70-129 | a link is accepted exactly for one of the nine pairs of types, with both ends in the project and no link there already; a removed one may be made again, and only one that is there can be removed |
| BacklogHistory.RequirementAcceptedExactly | backend/app/domain/backlog.py:23-27 | a requirement moves exactly along its machine, by the acts before |
| BacklogHistory.DefectAcceptedExactly | backend/app/domain/backlog.py:34-39 | a defect moves exactly along its machine, by the acts before |
| BacklogHistory.ReleaseAcceptedExactly | backend/app/domain/backlog.py:28-33 | a release moves exactly along its machine, by the acts before |
| BacklogHistory.ScenarioAcceptedExactly | backend/app/domain/scenarios.py:61-122 | by the acts before: a scenario is edited and takes cases in exactly while it is not archived, a requirement it names was created and not deleted, and a case can always leave |
| BacklogHistory.CreationAcceptedExactly | backend/app/domain/scenarios.py:39-50 | a scenario needs a title that is not blank, and like a new requirement or defect names only what belongs to the project; a requirement starts as draft or active |
| BacklogHistory.FilingAcceptedExactly | backend/app/domain/test_case/service.py:113-122 | a case is made or edited exactly when the repository accepts it and its folder is of the project or unchanged; a new case may name even an archived scenario |
| BacklogHistory.RaisingAcceptedExactly | backend/app/domain/execution.py:296-320 | a defect of the same project is raised on an attempt whatever was raised before, and the second time changes nothing |
| Metrics.DrillDownAgrees | backend/app/domain/reporting.py:623-891 | in every database state and scope the drilled rows, split by their cell, give back numerator and denominator of every metric but M-08 |
| Metrics.PassCoverageAgreesExactly | backend/app/domain/reporting.py:738-741 | for M-08 they do if and only if no requirement is all skipped (green scope) or none passed on its own (otherwise) |
| Metrics.AllSkippedCountsExactly | backend/app/domain/reporting.py:260-279 | an all-skipped requirement counts as passed in the summary if and only if the scope is green, and never in the drill-down |
| Examples.PassedInAnUnfinishedScope | backend/app/domain/reporting.py:738-741 | a run in which the M-08 drill-down counts a requirement the summary does not, in a scope that is not green |
| Examples.SkippedInAGreenScope | backend/app/domain/reporting.py:265-279 | a run in which the M-08 summary counts a requirement the drill-down does not, in a green scope |
| Metrics.PassCoverageIsAllOrNothing | backend/app/domain/reporting.py:260-279 | M-08's numerator is 0 or its whole denominator, the latter exactly in a green scope or for an empty one |
| Metrics.CoverageChain | backend/app/domain/reporting.py:226-283 | pass-covered requirements are executed, executed ones planned, planned ones designed; designed and uncovered make up all active ones |
| Metrics.CompletedAndNotRun | backend/app/domain/reporting.py:196-214 | a test with a terminal result is never counted as not run, and the two counts fit in the scope |
| FigureLaws.DesignCoverageExactly | backend/app/domain/reporting.py:128-153 | in every reachable state an active requirement is in M-05 if and only if a case covering it is approved or active, and otherwise in M-09 |
| FigureLaws.LifecycleMovesCoverage | backend/app/domain/reporting.py:218-283 | in every reachable state activating an approved case changes no figure and no drilled row of M-05 to M-09; a case leaving or entering force moves exactly the requirements it alone covers between M-05 and M-09 |
| FigureLaws.ExecutionFiguresExactly | backend/app/domain/reporting.py:196-214 | with a strictly increasing clock M-02, M-03 and M-04 are counted by the last result event of each scoped test, the pending retests and the starts |
| FigureLaws.ExecutionCoverageExactly | backend/app/domain/reporting.py:245-279 | M-06, M-07 and M-08 told the same way, from the scoped tests of cases in force |
| FigureLaws.DrilledResultsExactly | backend/app/domain/reporting.py:623-891 | with a strictly increasing clock the drilled rows of M-01 to M-03 show of each scoped test the pending retest or its last result event, and M-03 only those passed, failed or blocked |
| FigureLaws.WholeProjectExactly | backend/app/domain/reporting.py:115-124 | in every reachable state the whole-project scope is exactly the tests not removed whose cycle is one of the project and not archived |
| FigureLaws.FiltersPartition | backend/app/domain/reporting.py:115-124 | each filter keeps of the scope without it exactly the tests whose cycle has that value; an empty text filters nothing |
| FigureLaws.RemovalLeavesScope | backend/app/domain/reporting.py:105-114 | removing a test takes exactly that test out of every scope |
| FigureLaws.OnlyArchivingLeavesScope | backend/app/domain/reporting.py:105-114 | archiving a cycle takes exactly its tests out of every scope, and no other move of a cycle takes any |
| FigureLaws.DefectMovesFigures | backend/app/domain/reporting.py:285-335 | a defect's move changes M-10 by itself alone when it is critical, and M-11 by the requirements it touches, or alone touches, when it is severe |
| FigureLaws.StatusMovesSubjects | backend/app/domain/reporting.py:218-230 | a requirement is a subject of the coverage figures while it is active |
| FigureLaws.RaisingMovesFigures | backend/app/domain/reporting.py:297-335 | raising a severe open defect on an attempt adds to M-11 exactly the active requirements that the test of the attempt tests; raising any other adds none |
| FigureLaws.DrilledViaExactly | backend/app/domain/reporting.py:785-829 | a drilled row of M-11 names exactly the severe open defects linked to the requirement, and those raised on attempts at its tests |
| FigureLaws.LinkRegresses | backend/app/domain/reporting.py:309-322 | a link from a defect to a requirement makes that defect touch it directly, and changes no other pair |
| FigureLaws.LinkCovers | backend/app/domain/reporting.py:132-145 | a link from a requirement to a case makes that case cover it, and changes no other pair |
| FigureLaws.UnlinkUncovers | backend/app/domain/reporting.py:138-145 | removing the link leaves only what a scenario covers |
| FigureLaws.ScenarioCovers | backend/app/domain/reporting.py:146-152 | archiving a scenario takes away what it covers and restoring gives it back |
| FigureLaws.AutomationExactly | backend/app/domain/reporting.py:337-349 | in every reachable state M-12 is the automated among the active cases not marked as not applicable |
| FigureLaws.FiguresShareBases | backend/app/domain/reporting.py:155-369 | M-02 is a share of M-01, M-05 to M-07 of M-05 and M-09 together, M-08 of M-06, and exactly M-01, M-04, M-09, M-10 and M-11 are plain counts |
| Reporting.ComputeAll | backend/app/domain/reporting.py:155-369 | the loops compute all thirteen figures, in order, as the sizes of the sets they stand for |
| Reporting.DrillDown | backend/app/domain/reporting.py:623-891 | the loops list each contributing record once, with the cell that says how it counts |
| Reporting.RequirementTests | backend/app/domain/reporting.py:237-243 | collected through the per-case groups, a requirement's tests are its qualifying scoped ones |
| Reporting.AllScopeGreen | backend/app/domain/reporting.py:265-272 | scope_all_green holds exactly when some qualifying test passed and all passed or were skipped |
| Reporting.IsAffected | backend/app/domain/reporting.py:308-334 | the early-exit search finds a hot defect exactly when one is linked directly or raised on a scoped test |
| Progress.CycleBreakdown | backend/app/domain/reporting.py:427-470 | one row for each cycle with a scoped test, each column counting that cycle's tests, with both ratios, in the order of the cycle keys |
| Progress.BreakdownAddsUp | backend/app/domain/reporting.py:427-470 | the rows add up to M-01, M-02 and M-03 of the same scope |
| Progress.BreakdownPartitions | backend/app/domain/reporting.py:444-449 | in every reachable state terminal and not-run tests make up each row's scope |
| Progress.BreakdownRatios | backend/app/domain/reporting.py:441-468 | a breakdown has as many rows as the scope has cycles; completion times the scoped tests is the terminal ones, the pass rate times the judged is the passed, and both lie between nought and one |
| Progress.ReleaseOverview | backend/app/domain/reporting.py:531-590 | for each release not archived, the summed rows are the counts of its scope, with its breakdown, its requirements, its open critical defects and both ratios |
| Progress.ReleasesNeverExceedProject | backend/app/domain/reporting.py:544-551 | totals of distinct releases never exceed the project's and reach it exactly when every counted test runs for one of them |
| Progress.ReleaseMovesRequirement | backend/app/domain/reporting.py:552-557 | giving a requirement a release moves it to the row of that release and out of every other |
| Progress.NewDefectCounted | backend/app/domain/reporting.py:558-567 | a new defect is counted in the row of the release it names when critical, and in no other |
| Progress.ExecutionTrend | backend/app/domain/reporting.py:382-424 | each bucket of the window holds the counts of the attempts of its day |
| Progress.TrendConserves | backend/app/domain/reporting.py:404-424 | a bucket's total is the sum of its parts, and every attempt of the window is counted once |
| Progress.TrendShowsOriginalVerdicts | backend/app/domain/reporting.py:408-423 | in reachable states an attempt is filed by the verdict it ended with, whatever corrections say |
| Progress.BucketsByStatus | backend/app/domain/reporting.py:404-424 | in reachable states a bucket counts, under each name, the attempts that ended on its day with that status, skipped and aborted together |
| Progress.TrendFiltersPartition | backend/app/domain/reporting.py:388-403 | each filter of the trend keeps exactly the attempts that ran with that value; plan and build filter nothing |
| Progress.ProjectTrendExactly | backend/app/domain/reporting.py:388-396 | in every reachable state the trend of a project is over exactly the finished attempts of its cycles, archived or not |
| RateLimiter.RateLimitMiddleware.Dispatch | backend/app/api/middleware.py:50-70 | a request is refused exactly when the key's admissions of the last minute, over its whole history, use up the limit; otherwise it is recorded, and the history of every other key stays |
| RateLimiter.RateLimitMiddleware.Admit | backend/app/api/middleware.py:59-70 | popping and appending keep the deque the last minute of the full history |
| RateLimiter.RateLimitMiddleware.NoMinuteIsOverfull | backend/app/api/middleware.py:56-69 | no closed 60-second interval ever holds more admissions of a key than the highest limit of the requests that used it |
| RateLimiter.RateLimitMiddleware.NoMinuteIsOverfullFor | backend/app/api/middleware.py:54-69 | where no client of the key can share, that is the client's own limit: twenty below /api/v1/auth, the configured one elsewhere |
| RateLimiter.RecentIsExact | backend/app/api/middleware.py:60-61 | popping from the left leaves exactly the times within the window |
| RateLimiter.CountInExactly | backend/app/api/middleware.py:60-62 | the count is the number of admissions within the interval |
| RateLimiter.WindowsAreSeparate | backend/app/api/middleware.py:54-57 | clients that cannot share are told apart by their keys, and paths of one client that share a window have the same limit |
| RateLimiter.ClientsShareExactly | backend/app/api/middleware.py:57-79 | for any two client names there are paths with one key if and only if the longer name is the other, a colon and a path of the API of at most four parts; a name without a slash never shares |
| RateLimiter.SharedWindowExample | backend/app/api/middleware.py:54-57 | two names and paths that share a window under different limits |
| RateLimiter.BucketShowsLimit | backend/app/api/middleware.py:77-79 | whether the stricter limit applies can be read off the bucket |
| Worker.JobTable.ClaimNextJob | backend/app/worker.py:31-51 | the claim takes an oldest claimable job and leases it, or there is none |
| Worker.JobTable.Finish | backend/app/worker.py:65-109 | a run ends in the status its handler, a missing handler or an exception gives |
| Worker.ClaimsAreApart | backend/app/worker.py:31-51 | two claims of one job are more than 60 seconds apart in every run |
| Worker.OneWorkerAJob | backend/app/worker.py:89-109 | if handlers end within their lease or die, no two live workers run one job |
| Worker.FinishedIsFinal | backend/app/worker.py:65-109 | under the same condition a finished job never changes |
| Worker.LateEndOverwrites | backend/app/worker.py:65-109 | a step, whatever its event, changes the row of a finished job if and only if it is an end by the worker still busy with it that gives another status or another finish time |
| Worker.LateEndsInTraces | backend/app/worker.py:65-109 | the same equivalence at every step of every trace |
| Worker.FinishedChangesOnlyByLateEnds | backend/app/worker.py:65-109 | over any trace a finished job stays finished, and its row differs at the end only if a late end of it came in between |
| Worker.LateWorkerExample | backend/app/worker.py:89-109 | a run in which a failed job ends as completed |
| Worker.AbandonedIsClaimable | backend/app/worker.py:34-39 | an unfinished job can be claimed again exactly from the end of its last claim's lease |
| Worker.EveryWaitingJobIsReached | backend/app/worker.py:31-51 | as many claims as there are waiting jobs reach each of them |
| Worker.OldestFirst | backend/app/worker.py:31-51 | whatever is claimed, an older job was finished or leased at that moment |
| Worker.JobIsAsWritten | backend/app/worker.py:31-109 | over any trace, late workers included, a job's dates, owner, lease, status and finish are those of its submission, its first and last claim and its last end |
| Keys.NaturalIsNumeric | backend/app/domain/sorting.py:16-17 | for one project and type, ordering keys by length and text is ordering by number |
| Keys.PrintInjective | backend/app/domain/keys.py:16-59 | a printed key determines project, type and number |
| Keys.KeysFit | backend/app/domain/keys.py:16-59 | a key has at most 32 characters, and exactly 32 only for a plan of a 16-character project with a ten-digit number |
| Keys.KeysAsRead | backend/app/domain/keys.py:16-28 | what a key of each type looks like |
| Keys.KeysNeverRecur | backend/app/domain/keys.py:28-59 | as long as no project is deleted, no key is minted twice over any run, in any projects |
| KeyReuse.EqualKeys | backend/app/domain/projects.py:157-182 | over every run with deletions, two equal keys are of requirements or plans of two projects that had the same key in turn, at least one of them gone |
| KeyReuse.KeptEntitiesNeverShareKeys | backend/app/domain/keys.py:16-59 | keys of test cases, scenarios, releases, defects and cycles never recur |
| KeyReuse.NextKeyRecursExactly | backend/app/domain/keys.py:46-59 | the key about to be minted was minted before if and only if a deleted project had the same project key and that number of that type |
| KeyReuse.KeyCanRecurExactly | backend/app/domain/projects.py:157-182 | a key of a project there is can be minted again in some continuation if and only if the project holds nothing but requirements and plans |
| KeyReuse.RequirementKeyRecurs | backend/app/domain/backlog.py:175-197 | a run in which PAY-REQ-1 is minted twice |
| Keys.KeyMinter.NextKey | backend/app/domain/keys.py:28-59 | the counter row is created or incremented in place and the key is the next of its run |
| Sorting.ApplySort | backend/app/domain/sorting.py:20-51 | an unknown field is refused, blanks are skipped, and an order without columns falls back to the default |
| Sorting.TokensAreRead | backend/app/domain/sorting.py:35-48 | a list of known fields, each with or without a minus, sorts by those fields in turn, each in its own direction |
| Sorting.MinusReverses | backend/app/domain/sorting.py:39-48 | descending is ascending read backwards |
| Sorting.ClausesInTurn | backend/app/domain/sorting.py:35-51 | later clauses decide only where the earlier ones tie |
| Sorting.FieldOrders | backend/app/domain/sorting.py:41-48 | under one ascending field smaller values come first and equal ones tie |
| Sorting.KeyedPagesCover | backend/app/domain/backlog.py:355-364 | pages 1 to max(1, ceil(total/size)), each from its own query, give every row once and in order whenever the sort names the key |
| Sorting.DefaultIsNatural | backend/app/domain/sorting.py:16-17 | the default order is the natural one |
| Sorting.UntiedPagesCover | backend/app/domain/backlog.py:349-365 | the same for any order in which no two rows tie |
| Sorting.TiedPagesLoseARow | backend/app/domain/backlog.py:349-365 | with a tie there are sorted runs whose pages show one row twice and another never |
| Sorting.PagingIsSafeExactly | backend/app/domain/backlog.py:349-365 | paging covers the rows for all runs and page sizes if and only if no two rows tie |
| Sorting.SortedByStatusLosesARow | backend/app/domain/backlog.py:349-365 | two requirements of one status, sorted by status, and pages of one that never show the second |
| Sorting.KeysNeverTie | backend/app/domain/sorting.py:35-51 | rows with different keys never tie once the key is among the clauses |
| Auth.SignInExactly | backend/app/domain/auth.py:127-187 | a session opens for exactly the right password of an active, unlocked account, and resolves; every other attempt gets the same refusal |
| AccountHistory.SignInByHistory | backend/app/domain/auth.py:127-187 | over every run sign-in opens if and only if the password is the one the last act set for the account, by whichever of the ways, the account was last enabled, and no completed series of wrong passwords locks it at that moment |
| AccountHistory.LockIsAsCounted | backend/app/domain/auth.py:146-166 | over every run the failure count is what remains of the wrong passwords since the last sign-in or reset after whole series, and the lock is that of the last series completed |
| AccountHistory.OwnChangeTakesEffect | backend/app/domain/auth.py:695-726 | after an accepted change the new password signs an unlocked account in and the old one does not |
| AccountHistory.ResetTakesEffect | backend/app/domain/auth.py:360-398 | after any other act that sets a password, that password and no other signs an active account in, whatever was counted before |
| AccountHistory.ColumnsAreLastGiven | backend/app/domain/auth.py:273-726 | over every run username, address, name, role, status, password and must-change flag of an account are each what the last act that gave it said |
| AccountHistory.UsernamesStayUnique | backend/app/domain/auth.py:273-297 | over every run no two accounts have the same username, whatever the letter case |
| Auth.ResolvingSessionsAreCurrent | backend/app/domain/auth.py:190-203 | over every run, a session that resolves was opened by its account's sign-in, and each later password set of that account was its own change made from this session |
| Auth.OnlyThosePasswordsChange | backend/app/domain/auth.py:360-398 | no other act writes a stored password |
| Auth.DeadSessionsStayDead | backend/app/domain/auth.py:190-212 | an issued token that does not resolve never resolves again, whatever is disabled, restored, deleted or changed |
| AccountHistory.SessionResolvesExactly | backend/app/domain/auth.py:190-212 | over every run a token resolves to an account if and only if its sign-in opened it, its time is not up, and since then it was not signed out, nor the account disabled, deleted or given a password other than by its own change from this session |
| Auth.FailuresStayBelowThreshold | backend/app/domain/auth.py:151-162 | the failure counter stays below the threshold in every run |
| Auth.AtMostThresholdChecks | backend/app/domain/auth.py:146-162 | in any stretch of any run shorter than the lockout, without a sign-in or reset, at most threshold wrong passwords are checked |
| Auth.GuessesLock | backend/app/domain/auth.py:151-157 | that bound is met: as many wrong guesses as are left lock the account for the lockout, counted from the last |
| Auth.TemporaryPasswordsAreAcceptable | backend/app/domain/auth.py:579-590 | a shuffled temporary password always meets the policy |
| Auth.EmailsStayUnique | backend/app/domain/auth.py:383-391 | over every run no two accounts have the same address, whatever the letter case |
| AccountHistory.TokenWorksExactly | backend/app/domain/auth.py:540-571 | over every run a reset token works if and only if it is unexpired, was never used, its account and issuer were not deleted, and the password meets the policy, spelled out |
| AccountHistory.DoneExactly | backend/app/domain/auth.py:401-726 | which status changes, resets, own changes and deletions are done, told from the acts before |
| AccountHistory.RequestAnsweredExactly | backend/app/domain/auth.py:615-692 | the three answers to a forgotten password, and whom they give a temporary one |
| AccountHistory.ProfileDoneExactly | backend/app/domain/auth.py:316-398 | an account is made, and a profile changed, exactly when every part given is allowed and nobody else has the name or the address |
| Auth.ResetTellsNothing | backend/app/domain/auth.py:615-692 | the answer to a reset request does not depend on whether an ordinary account was found or what is in it; only an active one is changed |
| AuthService.Service.Authenticate | backend/app/domain/auth.py:127-187 | the in-place sign-in leaves the rows and the reply its specification prescribes |
| AuthService.Service.ResolveSession | backend/app/domain/auth.py:190-203 | the lookup meets its specification |
| AuthService.Service.Logout | backend/app/domain/auth.py:206-212 | after it the token resolves at no time |
| AuthService.Service.RevokeSessions | backend/app/domain/auth.py:374-378 | the bulk update revokes every session of the account but the kept one |
| AuthService.Service.SetUserStatus | backend/app/domain/auth.py:475-505 | disabling revokes every session of the account |
| AuthService.Service.UpdateUser | backend/app/domain/auth.py:360-398 | the in-place edit refuses a weak password, a bad name, a bad address and one in use, undoing what it did; setting a password clears the lock and signs the account out everywhere |
| AuthService.Service.InitiatePasswordReset | backend/app/domain/auth.py:508-537 | afterwards the account must change its password and is signed out everywhere |
| AuthService.Service.CompletePasswordReset | backend/app/domain/auth.py:540-571 | a token is used once, before it expires, and signs its account out everywhere |
| AuthService.Service.RequestPasswordReset | backend/app/domain/auth.py:615-692 | the three outcomes: an administrator is referred to the maintainer, without email nothing is done, otherwise an active ordinary account is reset and anyone is told an email was sent |
| AuthService.Service.ChangeOwnPassword | backend/app/domain/auth.py:695-726 | after a change no session of the account is live but the one it was made from |
| AuthService.Service.DeleteUser | backend/app/domain/auth.py:401-472 | refused for oneself, an administrator and an account with a footprint; otherwise the sessions and reset tokens go along |

## Left out

- Authorization (`authz.py`), HTTP, CSRF, the command line, the audit log and notifications: every call is taken as permitted.
- Unicode: `strip()` removes blanks, tabs and line ends only, `lower()` changes ASCII letters only, and the password policy sees ASCII letters.
- Random ids, random tokens and hashes: a supply that never repeats, and the password itself in place of its hash.
- Looking an account up by name or email: the row found is an argument. Which addresses are well formed is a parameter.
- Texts that decide nothing: names, notes, comments, durations, reasons (only whether one was given).
- Plan status and plan scope, the parent and path of a folder, owners, and the fields of requirements and defects that no metric reads.
- Projects are created and deleted in `KeyReuse` only; the other modules keep the set of projects fixed. Deletion is refused while a project holds rows, so no other module's rows lose their project.
- KeyReuse.KeyCanRecurExactly: a folder counts as a row with a key, though the code gives folders none.
- Display of figures: percentages and CSV. The sort of drilled rows by key is not modelled; cycle rows are sorted.
- `build_matrix` and `coverage_by_type`: they would repeat the counting shown for the metrics.
- Row locks and `skip_locked`: a claim and a key are taken in one step.
- A write that carries no expected version at all, which is refused before anything is read.
- Services.Database.CreateTestCase: the folder and the scenario are in `Backlog.CreateTestCase`, a step of the runs of `Boundaries.NothingCrossesProjects`.
- Services.Database.UpdateTestCase: the folder move is in `Backlog.UpdateTestCase`, a step of the same runs.
- RateLimiter.RateLimitMiddleware.Dispatch: the clock is taken never to run backwards.
- Register.ResolverIsLastWriter: needs a strictly increasing clock, since two events at one moment are ordered by id.
- Auth.AtMostThresholdChecks: counts the checks of sign-in; a change of one's own password also checks one, and the code does not count it.
- Auth.SignInExactly: re-hashing with new parameters on sign-in leaves the represented password alone.
- AuthService.Service.DeleteUser: the eight queries that look for what the account has done are one argument, since they read tables this project does not model.
- AuthService.Service.RequestPasswordReset: sending the email is not modelled.
