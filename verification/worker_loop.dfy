/** The claim-execute cycle of a worker against the store, as a loop that runs one failing job to its end. */
module WorkerLoop {
  import opened Types
  import opened RowSteps
  import opened RowInvariant
  import opened Selection
  import opened JobStore
  import opened StoreInvariant
  import opened Refinement
  import opened Runs
  import opened Backoff
  import opened Worker
  import opened RedisDriver

  function Text(err: Option<string>): string {
    if err.Some? then err.value else "job failed"
  }

  /** The driver call with which a worker reports a result; delays are nanoseconds, store times microseconds. */
  function ReportOp(id: JobId, r: ExecResult, now: Time): Op {
    if r.state.Completed? then Complete(id, "", now)
    else if r.state.Retryable? then ScheduleRetry(id, Text(r.err), now + r.backoff / 1000, now)
    else Fail(id, Text(r.err), now)
  }

  /** What the report of verdict `r` makes of a running row. */
  ghost predicate Reported(was: Row, now: Time, r: ExecResult, row: Row) {
    && row.spec == was.spec && row.attempt == was.attempt && row.attemptedBy == was.attemptedBy
    && (r.state.Completed? ==>
          && row.state == Completed && row.completedAt == Some(now) && row.finalizedAt == Some(now)
          && row.errors == was.errors)
    && (r.state.Retryable? ==>
          && row.state == Retryable && row.scheduledAt == now + r.backoff / 1000 && row.finalizedAt.None?
          && r.err.Some? && row.errors == was.errors + [AttemptError(was.attempt, r.err.value, now)])
    && (r.state.Failed? ==>
          && row.state == Failed && row.completedAt == Some(now) && row.finalizedAt == Some(now)
          && r.err.Some? && row.errors == was.errors + [AttemptError(was.attempt, r.err.value, now)])
  }

  /**
   Run a claimed job and report the verdict to the store: if the job still runs there, its row takes the verdict's
   state, due time and error; no other row changes. `now` is in microseconds, delays are in nanoseconds.
   */
  method Execute(store: RedisStore, job: Row, obj: JobObject, now: Time) returns (r: ExecResult)
    requires 0 <= job.attempt && Fits(job.attempt + 1) && (obj.backoff.Some? ==> Fits(obj.backoff.value.base))
    modifies store
    ensures IsVerdict(job, obj, now * 1000, r)
    ensures store.Contents() == Apply(old(store.Contents()), ReportOp(job.id, r, now))
    ensures store.jobs.Keys == old(store.jobs).Keys
    ensures forall i :: i in store.jobs && i != job.id ==> store.jobs[i] == old(store.jobs)[i]
    ensures job.id in store.jobs && old(store.jobs)[job.id].state == Running ==>
              Reported(old(store.jobs)[job.id], now, r, store.jobs[job.id])
  {
    hide Delay, Apply, ReportOp, Reported;
    ghost var s := store.Contents();
    r := ProcessJob(job, obj, now * 1000);
    Report(store, job.id, r, now);
    ReportRows(s, job.id, r, now);
  }

  method Report(store: RedisStore, id: JobId, r: ExecResult, now: Time)
    modifies store
    ensures store.Contents() == Apply(old(store.Contents()), ReportOp(id, r, now))
  {
    hide Answer, CompleteStore, FailStore, ScheduleRetryStore;
    var reply;
    if r.state.Completed? {
      reply := store.CompleteScript(id, "", now);
    } else if r.state.Retryable? {
      reply := store.ScheduleRetryScript(id, Text(r.err), now + r.backoff / 1000, now);
    } else {
      reply := store.FailScript(id, Text(r.err), now);
    }
  }

  lemma ReportRows(s: Store, id: JobId, r: ExecResult, now: Time)
    requires r.state.Completed? || r.state.Retryable? || r.state.Failed?
    requires r.err.Some? || r.state.Completed?
    ensures
      var t := Apply(s, ReportOp(id, r, now));
      && t.jobs.Keys == s.jobs.Keys && (forall i :: i in t.jobs && i != id ==> t.jobs[i] == s.jobs[i])
      && (id in s.jobs && s.jobs[id].state == Running ==> Reported(s.jobs[id], now, r, t.jobs[id]))
  {
    hide CompleteRow, FailRow, ScheduleRetryRow, Reported;
    if id in s.jobs && s.jobs[id].state == Running {
      ReportedRow(s.jobs[id], r, now);
    }
  }

  lemma ReportedRow(was: Row, r: ExecResult, now: Time)
    requires was.state == Running
    ensures r.state.Completed? ==> Reported(was, now, r, CompleteRow(was, "", now))
    ensures r.state.Retryable? && r.err.Some? ==>
              Reported(was, now, r, ScheduleRetryRow(was, Text(r.err), now + r.backoff / 1000, now))
    ensures r.state.Failed? && r.err.Some? ==> Reported(was, now, r, FailRow(was, Text(r.err), now))
  {}

  // ---------------------------------------------------------------- one cycle

  /** The claim half of a cycle: a job of the queue that is ready is started, and every other row stays. */
  lemma AfterClaim(s: Store, q: string, node: string, now: Time, due: JobId) returns (id: JobId)
    requires Inv(s) && due in s.jobs && s.jobs[due].spec.queue == q && Ready(s.jobs[due]) &&
               s.jobs[due].scheduledAt <= now
    ensures id in s.jobs && Ready(s.jobs[id]) && s.jobs[id].spec.queue == q
    ensures Answer(s, Claim(q, node, 1, now)) == Claimed([ClaimRow(s.jobs[id], node, now)])
    ensures ClaimStore(s, q, node, 1, now).jobs == s.jobs[id := ClaimRow(s.jobs[id], node, now)]
  {
    hide KeysOk, UuidsOk, RunningOk, RowsOk, ClaimStore, Picked, ClaimRow, Ready, Candidates, DueOk;
    id := SomeoneIsPicked(s, q, now, due);
    PickedReady(s, q, 1, now);
    StartedRowsAre(s, q, node, 1, now);
    PickedQueue(s, q, now, id);
    assert ClaimedRows(s, q, node, 1, now) == [ClaimRow(s.jobs[id], node, now)];
  }

  lemma SomeoneIsPicked(s: Store, q: string, now: Time, due: JobId) returns (id: JobId)
    requires DueOk(s) && due in s.jobs && s.jobs[due].spec.queue == q && Ready(s.jobs[due]) &&
               s.jobs[due].scheduledAt <= now
    ensures Picked(s, q, 1, now) == [id]
  {
    hide Ready, First;
    var ranks := Candidates(s, q, now);
    assert due in ranks;
    FirstIsFirst(ranks, 1);
    assert |ranks| > 0;
    id := First(ranks, 1)[0];
  }

  lemma PickedQueue(s: Store, q: string, now: Time, id: JobId)
    requires DueOk(s) && Picked(s, q, 1, now) == [id]
    ensures id in s.jobs && s.jobs[id].spec.queue == q
  {
    hide Picked, Ready;
    PickedReady(s, q, 1, now);
    assert id in Picked(s, q, 1, now);
    assert DueKey(q, id) in s.due;
  }

  /** The reporting half of a cycle. */
  lemma AfterReport(s: Store, id: JobId, r: ExecResult, now: Time)
    requires Inv(s) && id in s.jobs && s.jobs[id].state.Running? && !r.state.Completed?
    ensures
      var op := ReportOp(id, r, now);
      var t := Apply(s, op);
      && Inv(t) && t.jobs.Keys == s.jobs.Keys && (forall i :: i in s.jobs && i != id ==> t.jobs[i] == s.jobs[i])
      && EventOf(s, op, id) == (if r.state.Retryable? then Deferred else FailedRunning)
      && Change(EventOf(s, op, id), op, Some(s.jobs[id]), Some(t.jobs[id]))
  {
    hide KeysOk, UuidsOk, RunningOk, DueOk, RowsOk, ScheduleRetryRow, FailRow, Change;
    var op := ReportOp(id, r, now);
    ApplyInv(s, op);
    FinishChange(s, op, id);
  }

  lemma StoreFacts(s: Store, id: JobId)
    requires Inv(s)
    ensures id in s.jobs ==> RowOk(s.jobs[id]) && s.jobs[id].id == id
  {
    hide UuidsOk, DueOk, RunningOk, RowOk;
  }

  lemma CycleClaim(s: Store, id: JobId, node: string, now: Time)
    requires Inv(s) && id in s.jobs && Ready(s.jobs[id]) && Waiting(s.jobs[id])
    ensures
      var r := ClaimRow(s.jobs[id], node, now);
      && r.state.Running? && r.id == id && RowOk(r) && FailureLog(r, r.attempt) && r.attempt == s.jobs[id].attempt + 1
  {
    hide Inv, HistoryOk;
    StoreFacts(s, id);
    ClaimRowOk(s.jobs[id], node, now);
  }

  lemma CycleReport(t: Store, id: JobId, r: ExecResult, now: Time)
    requires Inv(t) && id in t.jobs && t.jobs[id].state.Running? && FailureLog(t.jobs[id], t.jobs[id].attempt)
    requires r.state.Retryable? || r.state.Failed?
    requires r.state.Retryable? <==> NextState(t.jobs[id], PLAIN_FAILURE.err).Retryable?
    ensures
      var u := Apply(t, ReportOp(id, r, now));
      && Inv(u) && u.jobs.Keys == t.jobs.Keys && (forall i :: i in t.jobs && i != id ==> u.jobs[i] == t.jobs[i])
      && Waiting(u.jobs[id]) && u.jobs[id].spec == t.jobs[id].spec && u.jobs[id].attempt == t.jobs[id].attempt
      && (u.jobs[id].state.Failed? || Ready(u.jobs[id]))
  {
    hide KeysOk, UuidsOk, DueOk, RunningOk, RowsOk, HistoryOk, Apply, ReportOp;
    AfterReport(t, id, r, now);
    StoreFacts(t, id);
    var op := ReportOp(id, r, now);
    var u := Apply(t, op);
    StoreFacts(u, id);
    FailingChange(EventOf(t, op, id), op, t.jobs[id], u.jobs[id], t.jobs[id].attempt);
  }

  // ---------------------------------------------------------------- a queue of failing jobs

  /** Not being run, with the history of a job that has failed every time so far. */
  ghost predicate Waiting(r: Row) {
    !r.state.Running? && r.attempt >= 0 && FailureLog(r, r.attempt)
  }

  /** Every freshly dispatched job qualifies. */
  lemma FreshRowsWait(r: Row)
    requires InitialRow(r)
    ensures Waiting(r)
  {}

  /** The claims a job has left: none if it cannot be claimed. */
  ghost function Left(r: Row): nat {
    if Ready(r) then r.spec.maxAttempts - r.attempt else 0
  }

  ghost function Queue(jobs: map<JobId, Row>, q: string): set<JobId> {
    set i | i in jobs && jobs[i].spec.queue == q
  }

  ghost function Total(jobs: map<JobId, Row>, ids: set<JobId>): nat
    requires ids <= jobs.Keys
  {
    if ids == {} then 0 else var i :| i in ids; Left(jobs[i]) + Total(jobs, ids - {i})
  }

  lemma {:induction false} TotalAt(jobs: map<JobId, Row>, ids: set<JobId>, i: JobId)
    requires ids <= jobs.Keys && i in ids
    ensures Total(jobs, ids) == Left(jobs[i]) + Total(jobs, ids - {i})
    decreases ids
  {
    hide Left;
    var k :| k in ids && Total(jobs, ids) == Left(jobs[k]) + Total(jobs, ids - {k});
    if k != i {
      TotalAt(jobs, ids - {k}, i);
      TotalAt(jobs, ids - {i}, k);
      assert ids - {k} - {i} == ids - {i} - {k};
    }
  }

  lemma {:induction false} TotalSame(a: map<JobId, Row>, b: map<JobId, Row>, ids: set<JobId>)
    requires ids <= a.Keys && ids <= b.Keys && forall i :: i in ids ==> a[i] == b[i]
    ensures Total(a, ids) == Total(b, ids)
    decreases ids
  {
    hide Left;
    if ids != {} {
      var i :| i in ids;
      TotalAt(a, ids, i);
      TotalAt(b, ids, i);
      TotalSame(a, b, ids - {i});
    }
  }

  /**
   How far a queue has got: its rows still wait, and each has been claimed as often as its claims left have gone
   down.
   */
  ghost predicate Progress(was: map<JobId, Row>, jobs: map<JobId, Row>, q: string, log: seq<JobId>) {
    && Queue(jobs, q) == Queue(was, q)
    && (forall i :: i in Queue(was, q) ==> i in jobs && Along(was[i], jobs[i], multiset(log)[i]))
  }

  ghost predicate Along(r: Row, r': Row, claims: nat) {
    && Waiting(r') && r'.spec == r.spec
    && claims + Left(r') == Left(r) && r'.attempt == r.attempt + claims
    && (if Ready(r) then r'.state.Failed? || Ready(r') else r' == r)
  }

  lemma ProgressNone(jobs: map<JobId, Row>, q: string)
    requires forall i :: i in Queue(jobs, q) ==> Waiting(jobs[i])
    ensures Progress(jobs, jobs, q, [])
  {}

  lemma AlongNext(r: Row, r': Row, r'': Row, claims: nat)
    requires Along(r, r', claims) && Ready(r')
    requires Waiting(r'') && r''.spec == r'.spec && r''.attempt == r'.attempt + 1 && (r''.state.Failed? || Ready(r''))
    ensures Along(r, r'', claims + 1) && Left(r'') == Left(r') - 1
  {
    hide HistoryOk;
  }

  lemma ProgressNext(was: map<JobId, Row>, jobs: map<JobId, Row>, jobs': map<JobId, Row>, q: string, log: seq<JobId>,
      id: JobId)
    requires Progress(was, jobs, q, log) && jobs'.Keys == jobs.Keys
    requires id in Queue(jobs, q) && Ready(jobs[id]) && forall i :: i in jobs && i != id ==> jobs'[i] == jobs[i]
    requires Waiting(jobs'[id]) && jobs'[id].spec == jobs[id].spec && jobs'[id].attempt == jobs[id].attempt + 1
    requires jobs'[id].state.Failed? || Ready(jobs'[id])
    ensures Progress(was, jobs', q, log + [id])
    ensures Left(jobs'[id]) == Left(jobs[id]) - 1
  {
    hide Along, Waiting, Left, Ready;
    AlongNext(was[id], jobs[id], jobs'[id], multiset(log)[id]);
    assert Queue(jobs', q) == Queue(jobs, q);
    forall i | i in Queue(was, q)
      ensures i in jobs' && Along(was[i], jobs'[i], multiset(log + [id])[i])
    {
      assert multiset(log + [id])[i] == multiset(log)[i] + (if i == id then 1 else 0);
    }
  }

  lemma TotalNext(jobs: map<JobId, Row>, jobs': map<JobId, Row>, ids: set<JobId>, id: JobId)
    requires ids <= jobs.Keys && jobs'.Keys == jobs.Keys && id in ids
    requires forall i :: i in jobs && i != id ==> jobs'[i] == jobs[i]
    requires Left(jobs'[id]) == Left(jobs[id]) - 1
    ensures Total(jobs', ids) == Total(jobs, ids) - 1
  {
    hide Left, Total;
    TotalAt(jobs, ids, id);
    TotalAt(jobs', ids, id);
    TotalSame(jobs, jobs', ids - {id});
  }

  /**
   A worker that keeps claiming from a queue of failing jobs comes to an end: every job that could be claimed has then
   been claimed as often as it had attempts left, and is failed with the errors of attempts 1 to max_attempts in
   order; jobs that could not be claimed are as they were. The clock only moves forward, to when some job is due.
   */
  method DriveToFailure(store: RedisStore, q: string, node: string, start: Time) returns (log: seq<JobId>)
    requires Inv(store.Contents())
    requires forall i :: i in Queue(store.jobs, q) ==> Waiting(store.jobs[i]) && MaxFits(store.jobs[i])
    modifies store
    ensures Inv(store.Contents()) && Queue(store.jobs, q) == Queue(old(store.jobs), q)
    ensures |log| == Total(old(store.jobs), Queue(old(store.jobs), q))
    ensures forall i :: i in Queue(old(store.jobs), q) ==> multiset(log)[i] == Left(old(store.jobs)[i])
    ensures forall i :: i in Queue(old(store.jobs), q) && !Ready(old(store.jobs)[i]) ==>
              store.jobs[i] == old(store.jobs)[i]
    ensures forall i :: i in Queue(old(store.jobs), q) && Ready(old(store.jobs)[i]) ==>
              store.jobs[i].state.Failed? && FailureLog(store.jobs[i], store.jobs[i].spec.maxAttempts)
  {
    hide Inv, HistoryOk, Apply, ReportOp, Waiting, Left, Total, Along, Ready, FailureLog, ClaimRow, ClaimStore;
    var now := start;
    ghost var was := store.jobs;
    ghost var ids := Queue(was, q);
    log := [];
    ProgressNone(store.jobs, q);
    while exists i :: i in store.jobs && store.jobs[i].spec.queue == q && Ready(store.jobs[i])
      invariant Inv(store.Contents()) && Progress(was, store.jobs, q, log) && ids <= store.jobs.Keys
      invariant |log| + Total(store.jobs, ids) == Total(was, ids)
      decreases Total(store.jobs, ids)
    {
      var i :| i in store.jobs && store.jobs[i].spec.queue == q && Ready(store.jobs[i]);
      if now < store.jobs[i].scheduledAt { now := store.jobs[i].scheduledAt; }
      ghost var s := store.Contents();
      ProgressWaits(was, s.jobs, q, log);
      var id := Cycle(store, q, node, now, i);
      ProgressNext(was, s.jobs, store.jobs, q, log, id);
      TotalNext(s.jobs, store.jobs, ids, id);
      log := log + [id];
    }
    QueueIsFinished(was, store.jobs, q, log);
    TotalNothing(store.jobs, ids);
  }

  ghost predicate MaxFits(r: Row) {
    Fits(r.spec.maxAttempts + 1)
  }

  /** One claim and its report. */
  method Cycle(store: RedisStore, q: string, node: string, now: Time, due: JobId) returns (id: JobId)
    requires Inv(store.Contents()) && due in store.jobs && Ready(store.jobs[due])
    requires store.jobs[due].spec.queue == q && store.jobs[due].scheduledAt <= now
    requires forall i :: i in Queue(store.jobs, q) ==> Waiting(store.jobs[i]) && MaxFits(store.jobs[i])
    modifies store
    ensures Inv(store.Contents()) && store.jobs.Keys == old(store.jobs).Keys
    ensures id in Queue(old(store.jobs), q) && Ready(old(store.jobs)[id])
    ensures forall i :: i in store.jobs && i != id ==> store.jobs[i] == old(store.jobs)[i]
    ensures Waiting(store.jobs[id]) && store.jobs[id].spec == old(store.jobs)[id].spec
    ensures store.jobs[id].attempt == old(store.jobs)[id].attempt + 1
    ensures store.jobs[id].state.Failed? || Ready(store.jobs[id])
  {
    hide Inv, HistoryOk, Apply, ReportOp, Waiting, FailureLog, ClaimStore, Ready;
    ghost var s := store.Contents();
    ghost var picked := AfterClaim(s, q, node, now, due);
    CycleClaim(s, picked, node, now);
    ApplyInv(s, Claim(q, node, 1, now));
    ClaimIsApply(s, q, node, now);
    var reply := store.ClaimScript(q, node, 1, now);
    var job := reply.rows[0];
    id := job.id;
    ghost var t := store.Contents();
    ClaimedFits(s.jobs[picked], job);
    var r := Execute(store, job, PLAIN_FAILURE, now);
    CycleReport(t, id, r, now);
  }

  lemma ClaimIsApply(s: Store, q: string, node: string, now: Time)
    ensures ClaimStore(s, q, node, 1, now) == Apply(s, Claim(q, node, 1, now))
  {
    hide ClaimStore;
  }

  lemma ClaimedFits(r: Row, job: Row)
    requires RowOk(job) && job.spec == r.spec && job.state.Running? && MaxFits(r)
    ensures 0 <= job.attempt && Fits(job.attempt + 1)
  {
    hide HistoryOk;
  }

  lemma ProgressWaits(was: map<JobId, Row>, jobs: map<JobId, Row>, q: string, log: seq<JobId>)
    requires Progress(was, jobs, q, log) && forall i :: i in Queue(was, q) ==> MaxFits(was[i])
    ensures forall i :: i in Queue(jobs, q) ==> Waiting(jobs[i]) && MaxFits(jobs[i])
  {
    hide Waiting, Left, Ready;
  }

  lemma QueueIsFinished(was: map<JobId, Row>, jobs: map<JobId, Row>, q: string, log: seq<JobId>)
    requires Progress(was, jobs, q, log) && forall i :: i in Queue(jobs, q) ==> !Ready(jobs[i])
    ensures forall i :: i in Queue(was, q) ==>
              && multiset(log)[i] == Left(was[i]) && Left(jobs[i]) == 0
              && (!Ready(was[i]) ==> jobs[i] == was[i])
              && (Ready(was[i]) ==> jobs[i].state.Failed? && FailureLog(jobs[i], jobs[i].spec.maxAttempts))
  {
    hide Ready;
    forall i | i in Queue(was, q)
      ensures multiset(log)[i] == Left(was[i]) && Left(jobs[i]) == 0 && (!Ready(was[i]) ==> jobs[i] == was[i])
      ensures Ready(was[i]) ==> jobs[i].state.Failed? && FailureLog(jobs[i], jobs[i].spec.maxAttempts)
    {
      assert Along(was[i], jobs[i], multiset(log)[i]);
    }
  }

  lemma {:induction false} TotalNothing(jobs: map<JobId, Row>, ids: set<JobId>)
    requires ids <= jobs.Keys && forall i :: i in ids ==> Left(jobs[i]) == 0
    ensures Total(jobs, ids) == 0
    decreases ids
  {
    hide Left;
    if ids != {} {
      var i :| i in ids;
      TotalAt(jobs, ids, i);
      TotalNothing(jobs, ids - {i});
    }
  }
}
