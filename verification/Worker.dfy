/** The leased job queue (backend/app/worker.py) as a protocol between any number of workers. */
module Worker {
  import opened Common

  type Id = nat
  type Time = int

  const LEASE_SECONDS := 60

  datatype Status = Queued | Running | Completed | Failed | Cancelled

  datatype Job = Job(
    status: Status, owner: Option<Id>, leaseExpires: Option<Time>,
    created: Time, started: Option<Time>, finished: Option<Time>)

  type Jobs = map<Id, Job>

  predicate Finished(s: Status) {
    s.Completed? || s.Failed? || s.Cancelled?
  }

  predicate Claimable(job: Job, now: Time) {
    !Finished(job.status) && (job.leaseExpires.None? || job.leaseExpires.value < now)
  }

  /** A claimable job than which none is older. */
  ghost predicate Oldest(jobs: Jobs, now: Time, j: Id) {
    && j in jobs && Claimable(jobs[j], now)
    && forall k :: k in jobs && Claimable(jobs[k], now) ==> jobs[j].created <= jobs[k].created
  }

  function Claimed(job: Job, worker: Id, now: Time): Job {
    job.(status := Running, owner := Some(worker), leaseExpires := Some(now + LEASE_SECONDS),
         started := if job.started.None? then Some(now) else job.started)
  }

  /** How the processing of a job ends. */
  datatype Ending =
    | Done        // the handler marks the job completed
    | NoHandler   // no handler is registered for its type: failed
    | Raised      // the handler raised: failed, but only if the job is still running
    | Died        // the worker is gone; nothing is written

  function Ended(job: Job, ending: Ending, now: Time): Job {
    match ending
    case Done => job.(status := Completed, finished := Some(now))
    case NoHandler => job.(status := Failed, finished := Some(now))
    case Raised => if job.status.Running? then job.(status := Failed, finished := Some(now)) else job
    case Died => job
  }

  // ------------------------------------------------------------------ the code

  class JobTable {
    var jobs: Jobs

    /** _claim_next_job */
    method ClaimNextJob(worker: Id, now: Time) returns (claimed: Option<Id>)
      modifies this
      ensures claimed.None? ==> jobs == old(jobs) && forall k :: k in jobs ==> !Claimable(jobs[k], now)
      ensures claimed.Some? ==>
                && Oldest(old(jobs), now, claimed.value)
                && jobs == old(jobs)[claimed.value := Claimed(old(jobs)[claimed.value], worker, now)]
    {
      claimed := None;
      var todo := jobs.Keys;
      while todo != {}
        invariant todo <= jobs.Keys && jobs == old(jobs)
        invariant claimed.None? ==> forall k :: k in jobs && k !in todo ==> !Claimable(jobs[k], now)
        invariant claimed.Some? ==>
                    && claimed.value in jobs && Claimable(jobs[claimed.value], now)
                    && forall k :: k in jobs && k !in todo && Claimable(jobs[k], now) ==>
                         jobs[claimed.value].created <= jobs[k].created
      {
        var k :| k in todo;
        if jobs[k].status in {Queued, Running} && (jobs[k].leaseExpires == None || jobs[k].leaseExpires.value < now)
           && (claimed == None || jobs[k].created < jobs[claimed.value].created)
        {
          claimed := Some(k);
        }
        todo := todo - {k};
      }
      if claimed == None { return; }
      var job := jobs[claimed.value];
      job := job.(status := Running);
      job := job.(owner := Some(worker));
      job := job.(leaseExpires := Some(now + LEASE_SECONDS));
      if job.started == None { job := job.(started := Some(now)); }
      jobs := jobs[claimed.value := job];
    }

    /** _process and the exception handler of run_forever. */
    method Finish(j: Id, ending: Ending, now: Time)
      requires j in jobs
      modifies this
      ensures jobs == old(jobs)[j := Ended(old(jobs)[j], ending, now)]
    {
      var job := jobs[j];
      if ending == Done {
        job := job.(status := Completed);
        job := job.(finished := Some(now));
      } else if ending == NoHandler || (ending == Raised && job.status == Running) {
        job := job.(status := Failed);
        job := job.(finished := Some(now));
      }
      jobs := jobs[j := job];
    }
  }

  // ------------------------------------------------------------------ the protocol

  /** A worker is busy with a job it claimed at some time. */
  datatype Run = Run(job: Id, since: Time)

  datatype State = State(jobs: Jobs, busy: map<Id, Run>)

  datatype Event =
    | Submit(job: Id)
    | Claim(worker: Id, job: Id)
    | End(worker: Id, ending: Ending)

  /** An event that is not possible in the state is no step of the protocol. */
  ghost function Step(s: State, now: Time, e: Event): State {
    match e
    case Submit(j) =>
      if j in s.jobs then s
      else s.(jobs := s.jobs[j := Job(Queued, None, None, now, None, None)])
    case Claim(w, j) =>
      if w in s.busy || !Oldest(s.jobs, now, j) then s
      else State(s.jobs[j := Claimed(s.jobs[j], w, now)], s.busy[w := Run(j, now)])
    case End(w, ending) =>
      if w !in s.busy then s
      else if s.busy[w].job !in s.jobs then s.(busy := s.busy - {w})
      else State(s.jobs[s.busy[w].job := Ended(s.jobs[s.busy[w].job], ending, now)], s.busy - {w})
  }

  type Trace = seq<(Time, Event)>

  ghost function After(trace: Trace): State
    decreases |trace|
  {
    if trace == [] then State(map[], map[])
    else Step(After(trace[..|trace| - 1]), trace[|trace| - 1].0, trace[|trace| - 1].1)
  }

  /** The i-th event of the trace claims job j. */
  ghost predicate ClaimsAt(trace: Trace, i: nat, j: Id)
    requires i < |trace|
  {
    var s, now, e := After(trace[..i]), trace[i].0, trace[i].1;
    e.Claim? && e.job == j && e.worker !in s.busy && Oldest(s.jobs, now, j)
  }

  // ------------------------------------------------------------------ leases

  /** Every past claim of a job is covered by the lease the job row carries. */
  lemma {:induction false} LeaseRemembers(trace: Trace, i: nat, j: Id)
    requires i < |trace| && ClaimsAt(trace, i, j)
    ensures var jobs := After(trace).jobs;
      j in jobs && jobs[j].leaseExpires.Some? && jobs[j].leaseExpires.value >= trace[i].0 + LEASE_SECONDS
    decreases |trace|
  {
    var n := |trace| - 1;
    var before := trace[..n];
    if i >= n {
    } else {
      assert before[..i] == trace[..i];
      LeaseRemembers(before, i, j);
    }
  }

  /** Two claims of one job are more than a lease apart, whatever the workers do in between. */
  lemma ClaimsAreApart(trace: Trace, i: nat, k: nat, j: Id)
    requires i < k < |trace| && ClaimsAt(trace, i, j) && ClaimsAt(trace, k, j)
    ensures trace[k].0 > trace[i].0 + LEASE_SECONDS
  {
    assert trace[..k][..i] == trace[..i];
    LeaseRemembers(trace[..k], i, j);
  }

  // ------------------------------------------------------------------ exclusion

  /** Whenever anything happens, every busy worker is still within its lease. */
  ghost predicate Timely(trace: Trace) {
    forall i, w :: 0 <= i < |trace| && w in After(trace[..i]).busy ==>
      trace[i].0 <= After(trace[..i]).busy[w].since + LEASE_SECONDS
  }

  ghost predicate Exclusive(s: State) {
    && (forall w :: w in s.busy ==>
          && s.busy[w].job in s.jobs
          && s.jobs[s.busy[w].job].status.Running?
          && s.jobs[s.busy[w].job].leaseExpires == Some(s.busy[w].since + LEASE_SECONDS))
    && (forall v, w :: v in s.busy && w in s.busy && s.busy[v].job == s.busy[w].job ==> v == w)
  }

  lemma ExclusiveStep(s: State, now: Time, e: Event)
    requires Exclusive(s) && forall w :: w in s.busy ==> now <= s.busy[w].since + LEASE_SECONDS
    ensures Exclusive(Step(s, now, e))
    ensures forall j :: j in s.jobs && Finished(s.jobs[j].status) ==>
              j in Step(s, now, e).jobs && Step(s, now, e).jobs[j] == s.jobs[j]
  {}

  /** If handlers end within their lease (or their worker dies), no two workers are ever busy
      with one job, and a busy worker's job is running. */
  lemma {:induction false} OneWorkerAJob(trace: Trace)
    requires Timely(trace)
    ensures Exclusive(After(trace))
    decreases |trace|
  {
    if trace == [] {
    } else {
      var n := |trace| - 1;
      TimelyPrefix(trace, n);
      OneWorkerAJob(trace[..n]);
      ExclusiveStep(After(trace[..n]), trace[n].0, trace[n].1);
    }
  }

  lemma TimelyPrefix(trace: Trace, n: nat)
    requires Timely(trace) && n <= |trace|
    ensures Timely(trace[..n])
  {
    forall i | 0 <= i < n ensures trace[..n][..i] == trace[..i] {}
  }

  /** ... and a finished job is never touched again. */
  lemma {:induction false} FinishedIsFinal(trace: Trace, n: nat, j: Id)
    requires Timely(trace) && n <= |trace|
    requires j in After(trace[..n]).jobs && Finished(After(trace[..n]).jobs[j].status)
    ensures j in After(trace).jobs && After(trace).jobs[j] == After(trace[..n]).jobs[j]
    decreases |trace|
  {
    if n == |trace| {
      assert trace[..n] == trace;
    } else {
      var m := |trace| - 1;
      assert trace[..m][..n] == trace[..n];
      TimelyPrefix(trace, m);
      FinishedIsFinal(trace[..m], n, j);
      OneWorkerAJob(trace[..m]);
      ExclusiveStep(After(trace[..m]), trace[m].0, trace[m].1);
    }
  }

  /** A late end: a worker still busy with the finished job writes a result of its own, and
      the row does not already say the same at the same moment. */
  predicate LateEnd(s: State, now: Time, e: Event, j: Id)
    requires j in s.jobs
  {
    && e.End? && e.worker in s.busy && s.busy[e.worker].job == j
    && ((e.ending.Done? && (!s.jobs[j].status.Completed? || s.jobs[j].finished != Some(now)))
        || (e.ending.NoHandler? && (!s.jobs[j].status.Failed? || s.jobs[j].finished != Some(now))))
  }

  /** The condition is needed: in any state, a step changes the row of a finished job exactly
      when it is such an end.  Nothing in the code stops it. */
  lemma LateEndOverwrites(s: State, now: Time, e: Event, j: Id)
    requires j in s.jobs && Finished(s.jobs[j].status)
    ensures j in Step(s, now, e).jobs
    ensures Step(s, now, e).jobs[j] != s.jobs[j] <==> LateEnd(s, now, e, j)
  {}

  /** The same at every step of every trace. */
  lemma LateEndsInTraces(trace: Trace, i: nat, j: Id)
    requires i < |trace| && j in After(trace[..i]).jobs && Finished(After(trace[..i]).jobs[j].status)
    ensures j in After(trace[..i + 1]).jobs
    ensures After(trace[..i + 1]).jobs[j] != After(trace[..i]).jobs[j] <==> LateEndAt(trace, i, j)
  {
    assert trace[..i + 1][..i] == trace[..i] && trace[..i + 1][i] == trace[i];
    LateEndOverwrites(After(trace[..i]), trace[i].0, trace[i].1, j);
    hide Step, LateEnd;
  }

  /** So, over any trace and timely or not, a job finished at one point has another row at the
      end only if some event in between was a late end of it. */
  lemma {:induction false} FinishedChangesOnlyByLateEnds(trace: Trace, n: nat, j: Id)
    requires n <= |trace| && j in After(trace[..n]).jobs && Finished(After(trace[..n]).jobs[j].status)
    ensures j in After(trace).jobs && Finished(After(trace).jobs[j].status)
    ensures After(trace).jobs[j] != After(trace[..n]).jobs[j] ==>
              exists i :: n <= i < |trace| && LateEndAt(trace, i, j)
    decreases |trace|
  {
    if n == |trace| {
      assert trace[..n] == trace;
    } else {
      var m := |trace| - 1;
      assert trace[..m][..n] == trace[..n];
      FinishedChangesOnlyByLateEnds(trace[..m], n, j);
      LateEndOverwrites(After(trace[..m]), trace[m].0, trace[m].1, j);
      assert After(trace).jobs[j] != After(trace[..m]).jobs[j] ==> LateEndAt(trace, m, j);
      if i :| n <= i < m && LateEndAt(trace[..m], i, j) {
        assert trace[..m][..i] == trace[..i];
        assert LateEndAt(trace, i, j);
      }
    }
  }

  ghost predicate LateEndAt(trace: Trace, i: nat, j: Id)
    requires i < |trace|
  {
    j in After(trace[..i]).jobs && LateEnd(After(trace[..i]), trace[i].0, trace[i].1, j)
  }

  /** A run in which that happens: the second worker fails the job, the late first one
      completes it. */
  lemma LateWorkerExample()
    ensures var trace := [(0, Submit(1)), (0, Claim(7, 1)), (61, Claim(8, 1)), (62, End(8, Raised))];
      && 1 in After(trace).jobs && After(trace).jobs[1].status == Failed
      && 1 in After(trace + [(63, End(7, Done))]).jobs
      && After(trace + [(63, End(7, Done))]).jobs[1].status == Completed
  {
    var e0, e1, e2 := (0, Submit(1)), (0, Claim(7, 1)), (61, Claim(8, 1));
    var e3, e4 := (62, End(8, Raised)), (63, End(7, Done));
    var t1: Trace := [e0];
    var t2: Trace := [e0, e1];
    var t3: Trace := [e0, e1, e2];
    var t4: Trace := [e0, e1, e2, e3];
    assert t1[..0] == [] && t2[..1] == t1 && t3[..2] == t2 && t4[..3] == t3 && (t4 + [e4])[..4] == t4;
    assert After(t1).jobs == map[1 := Job(Queued, None, None, 0, None, None)];
    assert Oldest(After(t1).jobs, 0, 1);
    assert After(t2) == State(map[1 := Job(Running, Some(7), Some(60), 0, Some(0), None)], map[7 := Run(1, 0)]);
    assert Oldest(After(t2).jobs, 61, 1);
    assert After(t3).busy[8] == Run(1, 61) && After(t3).busy[7] == Run(1, 0);
    assert After(t4).busy[7] == Run(1, 0);
  }

  // ------------------------------------------------------------------ recovery

  ghost function Waiting(jobs: Jobs, now: Time): set<Id> {
    set j | j in jobs && Claimable(jobs[j], now)
  }

  /** The lease a job carries is that of its last claim, whatever happened since. */
  lemma {:induction false} LeaseIsTheLastClaims(trace: Trace, i: nat, j: Id)
    requires i < |trace| && ClaimsAt(trace, i, j)
    requires forall k :: i < k < |trace| ==> !ClaimsAt(trace, k, j)
    ensures j in After(trace).jobs && After(trace).jobs[j].leaseExpires == Some(trace[i].0 + LEASE_SECONDS)
    decreases |trace|
  {
    var n := |trace| - 1;
    var before := trace[..n];
    if i >= n {
    } else {
      assert before[..i] == trace[..i];
      forall k | i < k < n ensures !ClaimsAt(before, k, j) {
        assert before[..k] == trace[..k];
        assert !ClaimsAt(trace, k, j);
      }
      LeaseIsTheLastClaims(before, i, j);
      assert !ClaimsAt(trace, n, j);
    }
  }

  /** A job whose last claim did not finish it, because the worker died or is late, can be
      claimed again at every moment after the lease, and not a moment sooner. */
  lemma AbandonedIsClaimable(trace: Trace, i: nat, j: Id, now: Time)
    requires i < |trace| && ClaimsAt(trace, i, j)
    requires forall k :: i < k < |trace| ==> !ClaimsAt(trace, k, j)
    requires j in After(trace).jobs && !Finished(After(trace).jobs[j].status)
    ensures j in Waiting(After(trace).jobs, now) <==> now > trace[i].0 + LEASE_SECONDS
  {
    LeaseIsTheLastClaims(trace, i, j);
  }

  /** A claim takes exactly one job off the waiting set, the oldest. */
  lemma ClaimTakesOne(jobs: Jobs, now: Time, w: Id, j: Id)
    requires Oldest(jobs, now, j)
    ensures Waiting(jobs[j := Claimed(jobs[j], w, now)], now) == Waiting(jobs, now) - {j}
  {}

  /** So as many claims as there are jobs waiting reach every one of them. */
  ghost predicate ClaimSequence(jobs: Jobs, now: Time, claims: seq<(Id, Id)>)
    decreases |claims|
  {
    claims == [] ||
    (Oldest(jobs, now, claims[0].1) &&
     ClaimSequence(jobs[claims[0].1 := Claimed(jobs[claims[0].1], claims[0].0, now)], now, claims[1..]))
  }

  lemma {:induction false} EveryWaitingJobIsReached(jobs: Jobs, now: Time, claims: seq<(Id, Id)>, j: Id)
    requires ClaimSequence(jobs, now, claims) && |claims| == |Waiting(jobs, now)| && j in Waiting(jobs, now)
    ensures exists i :: 0 <= i < |claims| && claims[i].1 == j
    decreases |claims|
  {
    assert Waiting(jobs, now) != {};
    var first := claims[0].1;
    if first == j {
    } else {
      var next := jobs[first := Claimed(jobs[first], claims[0].0, now)];
      ClaimTakesOne(jobs, now, claims[0].0, first);
      EveryWaitingJobIsReached(next, now, claims[1..], j);
      var i :| 0 <= i < |claims[1..]| && claims[1..][i].1 == j;
      assert claims[i + 1].1 == j;
    }
  }

  // ------------------------------------------------------------------ the row, told from the events

  ghost function At(trace: Trace, n: nat): State
    requires n <= |trace|
  {
    After(trace[..n])
  }

  lemma NextAt(trace: Trace, n: nat)
    requires n < |trace|
    ensures At(trace, n + 1) == Step(At(trace, n), trace[n].0, trace[n].1)
  {
    assert trace[..n + 1][..n] == trace[..n];
  }

  /** The i-th event is a claim of j by w that took it. */
  ghost predicate Took(trace: Trace, i: nat, j: Id, w: Id) {
    i < |trace| && trace[i].1 == Claim(w, j) && ClaimsAt(trace, i, j)
  }

  /** The i-th event ends a run of j and says how: completed, or failed; a handler that raised
      says so only of a job still running. */
  ghost predicate Wrote(trace: Trace, i: nat, j: Id, status: Status) {
    i < |trace|
    && var s, e := At(trace, i), trace[i].1;
       && e.End? && e.worker in s.busy && s.busy[e.worker].job == j && j in s.jobs
       && match e.ending
          case Done => status == Completed
          case NoHandler => status == Failed
          case Raised => status == Failed && s.jobs[j].status == Running
          case Died => false
  }

  ghost predicate NoneTook(trace: Trace, lo: nat, hi: nat, j: Id) {
    forall i, w :: lo <= i < hi ==> !Took(trace, i, j, w)
  }

  ghost predicate NoneWrote(trace: Trace, lo: nat, hi: nat, j: Id) {
    forall i, status :: lo <= i < hi ==> !Wrote(trace, i, j, status)
  }

  /** Owner and lease are the last claim's. */
  ghost predicate LeasedAsTaken(trace: Trace, n: nat, j: Id, job: Job) {
    || (NoneTook(trace, 0, n, j) && job.owner.None? && job.leaseExpires.None?)
    || exists i: nat, w: Id ::
         && 0 <= i < n && Took(trace, i, j, w) && NoneTook(trace, i + 1, n, j)
         && job.owner == Some(w) && job.leaseExpires == Some(trace[i].0 + 60)
  }

  /** The start is the first claim's. */
  ghost predicate StartedAsTaken(trace: Trace, n: nat, j: Id, job: Job) {
    || (NoneTook(trace, 0, n, j) && job.started.None?)
    || exists i: nat, w: Id ::
         0 <= i < n && Took(trace, i, j, w) && NoneTook(trace, 0, i, j) && job.started == Some(trace[i].0)
  }

  /** Status and finish are the last end's; before any, the job is queued, or running once taken. */
  ghost predicate FinishedAsWritten(trace: Trace, n: nat, j: Id, job: Job) {
    || (NoneWrote(trace, 0, n, j) && job.finished.None?
        && job.status == if NoneTook(trace, 0, n, j) then Queued else Running)
    || exists i: nat ::
         && 0 <= i < n && Wrote(trace, i, j, job.status) && NoneWrote(trace, i + 1, n, j)
         && job.finished == Some(trace[i].0)
  }

  /** The job dates from its submission. */
  ghost predicate CreatedAsSubmitted(trace: Trace, n: nat, j: Id, job: Job) {
    exists i: nat :: i < n && i < |trace| && trace[i].1 == Submit(j) && job.created == trace[i].0
  }

  ghost predicate RowAsWritten(trace: Trace, n: nat, j: Id)
    requires n <= |trace|
  {
    if j in At(trace, n).jobs then
      var job := At(trace, n).jobs[j];
      && LeasedAsTaken(trace, n, j, job) && StartedAsTaken(trace, n, j, job) && FinishedAsWritten(trace, n, j, job)
      && CreatedAsSubmitted(trace, n, j, job)
    else NoneTook(trace, 0, n, j) && NoneWrote(trace, 0, n, j)
  }

  /** Over any trace, late workers included, each column of a job is what its events made it: it
      dates from its submission, owner and lease are by the last claim, the start by the first, and
      status and finish by the last end. */
  lemma {:induction false} JobIsAsWritten(trace: Trace, n: nat, j: Id)
    requires n <= |trace|
    ensures RowAsWritten(trace, n, j)
  {
    if n == 0 {
    } else {
      var m := n - 1;
      JobIsAsWritten(trace, m, j);
      NextAt(trace, m);
      hide At;
      RowStep(trace, m, j);
    }
  }

  lemma RowStep(trace: Trace, m: nat, j: Id)
    requires m < |trace| && RowAsWritten(trace, m, j)
    requires At(trace, m + 1) == Step(At(trace, m), trace[m].0, trace[m].1)
    ensures RowAsWritten(trace, m + 1, j)
  {
    var s, now, e := At(trace, m), trace[m].0, trace[m].1;
    var next := At(trace, m + 1);
    CreationStep(trace, m, j);
    hide At, CreatedAsSubmitted;
    if w :| Took(trace, m, j, w) {
      TookStep(trace, m, j, w, s.jobs[j], next.jobs[j]);
    } else if status :| Wrote(trace, m, j, status) {
      WroteStep(trace, m, j, status, s.jobs[j], next.jobs[j]);
    } else if j in next.jobs {
      UntouchedRow(trace, m, j);
      if j in s.jobs {
        NothingStep(trace, m, j, s.jobs[j]);
      } else {
        FreshStep(trace, m, j, next.jobs[j]);
      }
    } else {
      hide Took, Wrote;
    }
  }

  lemma CreationStep(trace: Trace, m: nat, j: Id)
    requires m < |trace| && At(trace, m + 1) == Step(At(trace, m), trace[m].0, trace[m].1)
    requires j in At(trace, m).jobs ==> CreatedAsSubmitted(trace, m, j, At(trace, m).jobs[j])
    ensures j in At(trace, m + 1).jobs ==> CreatedAsSubmitted(trace, m + 1, j, At(trace, m + 1).jobs[j])
  {
    hide At;
    if j in At(trace, m + 1).jobs && j !in At(trace, m).jobs {
      assert trace[m].1 == Submit(j);
    }
  }

  /** First come, first served: whatever is claimed, no job that could be claimed then is older. */
  lemma OldestFirst(trace: Trace, i: nat, k: Id, j: Id)
    requires i < |trace| && ClaimsAt(trace, i, k) && j in After(trace[..i]).jobs
    ensures k in After(trace[..i]).jobs
    ensures After(trace[..i]).jobs[j].created < After(trace[..i]).jobs[k].created ==>
              || Finished(After(trace[..i]).jobs[j].status)
              || (After(trace[..i]).jobs[j].leaseExpires.Some?
                  && After(trace[..i]).jobs[j].leaseExpires.value >= trace[i].0)
  {
    hide After;
  }

  lemma UntouchedRow(trace: Trace, m: nat, j: Id)
    requires m < |trace| && At(trace, m + 1) == Step(At(trace, m), trace[m].0, trace[m].1)
    requires (forall w :: !Took(trace, m, j, w)) && (forall status :: !Wrote(trace, m, j, status))
    requires j in At(trace, m + 1).jobs
    ensures var s, next := At(trace, m), At(trace, m + 1);
      if j in s.jobs then next.jobs[j] == s.jobs[j]
      else next.jobs[j] == Job(Queued, None, None, next.jobs[j].created, None, None)
  {
    var s, now, e := At(trace, m), trace[m].0, trace[m].1;
    hide At;
    if e.Claim? && e.job == j {
      assert !Took(trace, m, j, e.worker);
    }
    if e.End? && e.worker in s.busy && s.busy[e.worker].job == j && j in s.jobs {
      assert !Wrote(trace, m, j, Completed) && !Wrote(trace, m, j, Failed);
    }
    hide Oldest;
  }

  lemma TookStep(trace: Trace, m: nat, j: Id, w: Id, job: Job, next: Job)
    requires Took(trace, m, j, w) && !Finished(job.status) && next == Claimed(job, w, trace[m].0)
    requires LeasedAsTaken(trace, m, j, job) && StartedAsTaken(trace, m, j, job) && FinishedAsWritten(trace, m, j, job)
    ensures LeasedAsTaken(trace, m + 1, j, next) && StartedAsTaken(trace, m + 1, j, next)
    ensures FinishedAsWritten(trace, m + 1, j, next)
  {
    forall status ensures !Wrote(trace, m, j, status) {}
    forall i, status | Wrote(trace, i, j, status) ensures Finished(status) {}
    hide Took, Wrote, Finished;
    assert NoneTook(trace, m + 1, m + 1, j);
  }

  lemma WroteStep(trace: Trace, m: nat, j: Id, status: Status, job: Job, next: Job)
    requires Wrote(trace, m, j, status) && next == job.(status := status, finished := Some(trace[m].0))
    requires LeasedAsTaken(trace, m, j, job) && StartedAsTaken(trace, m, j, job)
    ensures LeasedAsTaken(trace, m + 1, j, next) && StartedAsTaken(trace, m + 1, j, next)
    ensures FinishedAsWritten(trace, m + 1, j, next)
  {
    forall w ensures !Took(trace, m, j, w) {}
    hide Took, Wrote;
    assert NoneWrote(trace, m + 1, m + 1, j);
    NoTakeStep(trace, m, j, job);
    assert LeasedAsTaken(trace, m + 1, j, job) && StartedAsTaken(trace, m + 1, j, job);
  }

  lemma NoTakeStep(trace: Trace, m: nat, j: Id, job: Job)
    requires forall w :: !Took(trace, m, j, w)
    ensures forall lo: nat :: lo <= m && NoneTook(trace, lo, m, j) ==> NoneTook(trace, lo, m + 1, j)
    ensures LeasedAsTaken(trace, m, j, job) ==> LeasedAsTaken(trace, m + 1, j, job)
    ensures StartedAsTaken(trace, m, j, job) ==> StartedAsTaken(trace, m + 1, j, job)
  {
    hide Took;
  }

  lemma NothingStep(trace: Trace, m: nat, j: Id, job: Job)
    requires (forall w :: !Took(trace, m, j, w)) && (forall status :: !Wrote(trace, m, j, status))
    requires LeasedAsTaken(trace, m, j, job) && StartedAsTaken(trace, m, j, job) && FinishedAsWritten(trace, m, j, job)
    ensures LeasedAsTaken(trace, m + 1, j, job) && StartedAsTaken(trace, m + 1, j, job)
    ensures FinishedAsWritten(trace, m + 1, j, job)
  {
    NoTakeStep(trace, m, j, job);
    hide Took, Wrote, LeasedAsTaken, StartedAsTaken;
    assert forall lo: nat :: lo <= m && NoneWrote(trace, lo, m, j) ==> NoneWrote(trace, lo, m + 1, j);
  }

  lemma FreshStep(trace: Trace, m: nat, j: Id, job: Job)
    requires (forall w :: !Took(trace, m, j, w)) && (forall status :: !Wrote(trace, m, j, status))
    requires NoneTook(trace, 0, m, j) && NoneWrote(trace, 0, m, j)
    requires job == Job(Queued, None, None, job.created, None, None)
    ensures LeasedAsTaken(trace, m + 1, j, job) && StartedAsTaken(trace, m + 1, j, job)
    ensures FinishedAsWritten(trace, m + 1, j, job)
  {
    hide Took, Wrote;
  }
}
