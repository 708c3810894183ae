/**
 What a worker decides after running a claimed job, and how the decision fits the store: the claim predicate
 `attempt < max_attempts` and the retry verdict `attempt + 1 <= max_attempts` meet without a gap.
 */
module Worker {
  import opened Types
  import opened RowSteps
  import opened RowInvariant
  import opened Selection
  import opened JobStore
  import opened StoreInvariant
  import opened Refinement
  import opened Runs
  import opened Backoff

  /** The state a job goes to when its handler has ended with `err`. */
  function NextState(job: Row, err: Option<string>): State {
    if err.None? then Completed
    else
      var maxAttempts := if job.spec.maxAttempts <= 0 then 3 else job.spec.maxAttempts;
      if job.attempt + 1 > maxAttempts then Failed else Retryable
  }

  /** A job object as a worker meets it: does it decode, how does running it end, which optional interfaces has it. */
  datatype JobObject = JobObject(
    decodes: bool,
    err: Option<string>,
    backoff: Option<Config>,
    retryUntil: Option<int>,
    beforeRetry: Option<Option<string>>)

  const PLAIN_FAILURE := JobObject(true, Some("failed"), None, None, None)

  datatype ExecResult = ExecResult(state: State, err: Option<string>, backoff: int)

  const DECODE_ERROR := "decode error"
  const HOOK_ERROR := "before retry hook: "

  /**
   Completed is for a run without an error; a retry is for a job with attempts left, in time and not refused by its
   hook, after the delay of its own backoff or the default one; everything else fails.
   */
  ghost predicate IsVerdict(job: Row, obj: JobObject, now: int, r: ExecResult)
    requires job.attempt >= 0
  {
    var delay := Delay(if obj.backoff.Some? then obj.backoff.value else DEFAULT_BACKOFF, job.attempt + 1);
    var again :=
      && obj.decodes && obj.err.Some?
      && job.attempt < (if job.spec.maxAttempts <= 0 then 3 else job.spec.maxAttempts)
      && (obj.retryUntil.Some? ==> now + delay < obj.retryUntil.value);
    var refusal := if again && obj.beforeRetry.Some? then obj.beforeRetry.value else None;
    && (r.state.Completed? || r.state.Retryable? || r.state.Failed?)
    && (r.state.Completed? <==> obj.decodes && obj.err.None?)
    && (r.state.Retryable? <==> again && refusal.None?)
    && r.backoff == (if r.state.Retryable? then delay else 0)
    && r.err == (if !obj.decodes then Some(DECODE_ERROR)
                 else if refusal.Some? then Some(HOOK_ERROR + refusal.value)
                 else obj.err)
  }

  /** The decision after a run. */
  method ProcessJob(job: Row, obj: JobObject, now: int) returns (r: ExecResult)
    requires 0 <= job.attempt && Fits(job.attempt + 1) && (obj.backoff.Some? ==> Fits(obj.backoff.value.base))
    ensures IsVerdict(job, obj, now, r)
  {
    if !obj.decodes {
      return ExecResult(Failed, Some(DECODE_ERROR), 0);
    }
    var execErr := obj.err;
    if execErr.Some? {
      var nextState := NextState(job, execErr);
      var backoff := 0;
      if nextState.Retryable? {
        backoff := ComputeBackoff(DEFAULT_BACKOFF, job.attempt + 1);
        if obj.backoff.Some? {
          backoff := ComputeBackoff(obj.backoff.value, job.attempt + 1);
        }
        if obj.retryUntil.Some? && !(now + backoff < obj.retryUntil.value) {
          nextState := Failed;
          backoff := 0;
        }
        if obj.beforeRetry.Some? && nextState.Retryable? {
          if obj.beforeRetry.value.Some? {
            execErr := Some(HOOK_ERROR + obj.beforeRetry.value.value);
            nextState := Failed;
            backoff := 0;
          }
        }
      }
      return ExecResult(nextState, execErr, backoff);
    }
    r := ExecResult(Completed, None, 0);
  }

  // ---------------------------------------------------------------- claimed rows

  /** On a row a worker holds, a retry verdict means another claim is allowed, and only then. */
  lemma VerdictFitsClaim(job: Row, err: Option<string>)
    requires RowOk(job) && job.state.Running? && err.Some?
    ensures NextState(job, err).Retryable? <==> job.attempt < job.spec.maxAttempts
    ensures NextState(job, err).Failed? <==> job.attempt == job.spec.maxAttempts
  {}

  /** A due entry can start exactly the rows that are ready: some claim starts the job iff attempt < max_attempts. */
  ghost predicate Startable(s: Store, id: JobId) {
    exists q, node, max, now :: EventOf(s, Claim(q, node, max, now), id) == Started
  }

  lemma StartableIffReady(s: Store, id: JobId)
    requires Inv(s) && id in s.jobs
    ensures Startable(s, id) <==> Ready(s.jobs[id])
  {
    hide UuidsOk, RunningOk, RowsOk, Candidates, Picked, Ready;
    if Ready(s.jobs[id]) {
      var row := s.jobs[id];
      EveryoneIsPicked(s, row.spec.queue, row.scheduledAt, id);
      var max := |Candidates(s, row.spec.queue, row.scheduledAt)|;
      assert EventOf(s, Claim(row.spec.queue, "", max, row.scheduledAt), id) == Started;
    }
    forall q, node, max, now | EventOf(s, Claim(q, node, max, now), id) == Started
      ensures Ready(s.jobs[id])
    {
      PickedReady(s, q, max, now);
    }
  }

  /** A claim with room for all candidates starts them all. */
  lemma EveryoneIsPicked(s: Store, q: string, now: Time, id: JobId)
    requires DueOk(s) && id in s.jobs && Ready(s.jobs[id]) && s.jobs[id].spec.queue == q &&
               s.jobs[id].scheduledAt <= now
    ensures var max := |Candidates(s, q, now)|; max > 0 && id in Picked(s, q, max, now)
  {
    var ranks := Candidates(s, q, now);
    assert id in ranks;
    FirstTakesAll(ranks, id);
  }

  lemma FirstTakesAll(ranks: map<JobId, Rank>, id: JobId)
    requires WellRanked(ranks) && id in ranks
    ensures |ranks| > 0 && id in First(ranks, |ranks|)
  {
    var p := First(ranks, |ranks|);
    FirstIsFirst(ranks, |ranks|);
    FirstIsDistinct(ranks, |ranks|);
    DistinctCount(p);
    assert Elements(p) <= ranks.Keys && |Elements(p)| == |ranks.Keys|;
    SameSizeSubset(Elements(p), ranks.Keys);
    assert id in Elements(p);
  }

  lemma SameSizeSubset<T>(a: set<T>, b: set<T>)
    requires a <= b && |a| == |b|
    ensures a == b
  {
    if a != b {
      SmallerSet(a, b);
      assert false;
    }
  }

  // ---------------------------------------------------------------- put-off jobs

  /** Whatever else happens in a run, a job is put off only while its row would allow another claim. */
  ghost predicate PutOffsAllowed(ops: seq<Op>, id: JobId) {
    ops == [] ||
    (PutOffsAllowed(Front(ops), id) &&
     (LastEvent(ops, id) == Deferred ==>
         Now(Front(ops), id).Some? && NextState(Now(Front(ops), id).value, Some("")).Retryable?))
  }

  /** In such a run no put-off job is stranded: every retryable row can be claimed again. */
  lemma {:induction false} RetriesAreNeverStranded(ops: seq<Op>, id: JobId)
    requires WellFormedRun(ops) && PutOffsAllowed(ops, id) && Now(ops, id).Some? && Now(ops, id).value.state.Retryable?
    ensures Ready(Now(ops, id).value) && Startable(Exec(ops), id)
  {
    hide Exec, EventOf, WellFormed, HistoryOk, Startable, KeysOk, UuidsOk, DueOk, RunningOk;
    if ops == [] {
      EmptyRun(id);
    } else {
      LastChange(ops, id);
      PrefixRowOk(ops, id);
      if LastEvent(ops, id) != Deferred {
        RetriesAreNeverStranded(Front(ops), id);
      }
      ReachableInv(ops);
      StartableIffReady(Exec(ops), id);
    }
  }

  /** A put-off strands the job exactly when the stored row has used up its attempts by then. */
  lemma PutOffStrandsIff(ops: seq<Op>, id: JobId, k: nat)
    requires WellFormedRun(ops) && k < |ops| && EventAt(ops, id, k) == Deferred
    ensures Now(ops[..k], id).Some? && Now(ops[..k + 1], id).Some? && Now(ops[..k + 1], id).value.state.Retryable?
    ensures var r := Now(ops[..k], id).value; Startable(Exec(ops[..k + 1]), id) <==> r.attempt != r.spec.maxAttempts
  {
    hide Exec, EventOf, WellFormed, HistoryOk, Startable, KeysOk, UuidsOk, DueOk, RunningOk;
    ChangeAt(ops, id, k);
    ReachableInv(ops[..k + 1]);
    ReachableInv(ops[..k]);
    StartableIffReady(Exec(ops[..k + 1]), id);
  }

  /** Step `k` puts off a job that a worker got by the claim at `i`, on that worker's retryable verdict. */
  ghost predicate PutsOffClaim(ops: seq<Op>, id: JobId, i: nat, k: nat)
    requires i < k < |ops|
  {
    && EventAt(ops, id, i) == Started && EventAt(ops, id, k) == Deferred
    && Now(ops[..i + 1], id).Some? && NextState(Now(ops[..i + 1], id).value, Some("")).Retryable?
  }

  /** A worker whose claim has not ended meanwhile does not strand the job it puts off. */
  lemma HolderDoesNotStrand(ops: seq<Op>, id: JobId, i: nat, k: nat)
    requires WellFormedRun(ops) && i < k < |ops| && PutsOffClaim(ops, id, i, k)
    requires forall m :: i < m < k ==> EventAt(ops, id, m) !in ENDINGS
    ensures Startable(Exec(ops[..k + 1]), id)
  {
    hide Exec, EventOf, WellFormed, HistoryOk, Startable, KeysOk, UuidsOk, DueOk, RunningOk;
    ChangeAt(ops, id, i);
    StaysRunning(ops, id, i, k);
    ReachableInv(ops[..k]);
    PutOffStrandsIff(ops, id, k);
    VerdictFitsClaim(Now(ops[..k], id).value, Some(""));
  }

  /** The claim at `i` ended at some `m` and the job was claimed again before `k`. */
  ghost predicate Superseded(ops: seq<Op>, id: JobId, i: nat, k: nat, endings: set<Event>)
    requires k <= |ops|
  {
    exists m, n :: i < m < n < k && EventAt(ops, id, m) in endings && EventAt(ops, id, n) == Started
  }

  /**
   A worker strands the job it puts off only if its claim is no longer the current one: the claim has been ended by
   another step and the job claimed again. Unless a report came in between, that step was a stale requeue.
   */
  lemma StrandingNeedsNewerClaim(ops: seq<Op>, id: JobId, i: nat, k: nat)
    requires WellFormedRun(ops) && i < k < |ops| && PutsOffClaim(ops, id, i, k)
    requires !Startable(Exec(ops[..k + 1]), id)
    ensures Superseded(ops, id, i, k, {Finished, FailedRunning, Deferred, Requeued})
    ensures (forall m :: i < m < k ==> EventAt(ops, id, m) !in {Finished, FailedRunning, Deferred}) ==>
              Superseded(ops, id, i, k, {Requeued})
  {
    hide Exec, EventOf, EventAt, WellFormed, RowOk, Startable;
    if forall m :: i < m < k ==> EventAt(ops, id, m) !in ENDINGS {
      HolderDoesNotStrand(ops, id, i, k);
      assert false;
    } else {
      var m :| i < m < k && EventAt(ops, id, m) in ENDINGS;
      var n := ClaimedAgain(ops, id, m, k);
      assert EventAt(ops, id, m) in {Finished, FailedRunning, Deferred, Requeued};
    }
  }

  /** A job that is put off after a claim of it has ended was claimed in between. */
  lemma ClaimedAgain(ops: seq<Op>, id: JobId, m: nat, k: nat) returns (n: nat)
    requires WellFormedRun(ops) && m < k < |ops|
    requires EventAt(ops, id, m) in ENDINGS && EventAt(ops, id, k) == Deferred
    ensures m < n < k && EventAt(ops, id, n) == Started && EventAt(ops, id, m) != DroppedRunning
  {
    hide Exec, EventOf, EventAt, WellFormed, RowOk;
    ChangeAt(ops, id, m);
    ChangeAt(ops, id, k);
    if EventAt(ops, id, m) == DroppedRunning {
      GoneStaysGone(ops, id, m, m + 1, k);
    }
    n := RunsOnlyAfterClaim(ops, id, m + 1, k);
  }

  /** A stranded job stays exactly as it is until it is retried, cancelled, failed or pruned. */
  lemma {:induction false} StrandedStays(ops: seq<Op>, id: JobId, j: nat, k: nat)
    requires WellFormedRun(ops) && j <= k <= |ops|
    requires Now(ops[..j], id).Some? && Now(ops[..j], id).value.state.Claimable() && !Startable(Exec(ops[..j]), id)
    requires forall m :: j <= m < k ==> EventAt(ops, id, m) !in {Reset, Withdrawn, FailedWaiting, Dropped}
    ensures Now(ops[..k], id) == Now(ops[..j], id)
    decreases k
  {
    hide Exec, EventOf, WellFormed, Startable, KeysOk, UuidsOk, DueOk, RunningOk, RowOk;
    if j < k {
      StrandedStays(ops, id, j, k - 1);
      ReachableInv(ops[..j]);
      StartableIffReady(Exec(ops[..j]), id);
      ChangeAt(ops, id, k - 1);
      assert ops[..k - 1 + 1] == ops[..k];
      assert EventAt(ops, id, k - 1) !in {Reset, Withdrawn, FailedWaiting, Dropped};
    }
  }

  /** The steps of a job that always fails, has no optional interfaces and is left alone by operators. */
  ghost predicate FailingStep(ev: Event, before: Option<Row>) {
    match ev
    case Idle => true
    case Added => true
    case Started => true
    case Deferred => before.Some? && NextState(before.value, PLAIN_FAILURE.err).Retryable?
    case FailedRunning => before.Some? && NextState(before.value, PLAIN_FAILURE.err).Failed?
    case _ => false
  }

  ghost predicate AlwaysFailing(ops: seq<Op>, id: JobId) {
    ops == [] || (AlwaysFailing(Front(ops), id) && FailingStep(LastEvent(ops, id), Now(Front(ops), id)))
  }

  /** The history of such a job so far: one error per ended claim, numbered from 1. */
  ghost predicate FailureLog(r: Row, claims: nat) {
    && claims == r.attempt
    && |r.errors| == r.attempt - (if r.state.Running? then 1 else 0)
    && (forall k :: 0 <= k < |r.errors| ==> r.errors[k].attempt == k + 1)
    && !r.state.Completed? && !r.state.Cancelled?
    && (r.state.Failed? ==> r.attempt == r.spec.maxAttempts)
    && (r.state.Claimable() && r.spec.maxAttempts >= 1 ==> Ready(r))
  }

  lemma FailingChange(ev: Event, op: Op, r: Row, r': Row, claims: nat)
    requires RowOk(r) && FailureLog(r, claims)
    requires Change(ev, op, Some(r), Some(r')) && FailingStep(ev, Some(r))
    ensures FailureLog(r', claims + (if ev == Started then 1 else 0))
  {
    hide HistoryOk;
  }

  /**
   A job that always fails is claimed until it is failed and no longer: it ends failed after exactly max_attempts
   claims, with one error per attempt 1, 2, ..., max_attempts; until then it is running or can be claimed.
   */
  lemma {:induction false} FailingJobRunsMaxAttempts(ops: seq<Op>, id: JobId)
    requires WellFormedRun(ops) && AlwaysFailing(ops, id) && Now(ops, id).Some?
    ensures FailureLog(Now(ops, id).value, Count(ops, id, {Started}))
    ensures Now(ops, id).value.state.Failed? ==>
              var r := Now(ops, id).value;
              && Count(ops, id, {Started}) == |r.errors| == r.spec.maxAttempts
              && forall k :: 0 <= k < r.spec.maxAttempts ==> r.errors[k].attempt == k + 1
  {
    hide Exec, EventOf, WellFormed, HistoryOk;
    if ops == [] {
      EmptyRun(id);
    } else {
      LastChange(ops, id);
      if Now(Front(ops), id).Some? {
        FailingJobRunsMaxAttempts(Front(ops), id);
        PrefixRowOk(ops, id);
        FailingChange(LastEvent(ops, id), Last(ops), Now(Front(ops), id).value, Now(ops, id).value,
            Count(Front(ops), id, {Started}));
      } else {
        NeverStartedYet(Front(ops), id);
      }
    }
  }

  lemma PrefixRowOk(ops: seq<Op>, id: JobId)
    requires WellFormedRun(ops) && ops != []
    ensures Now(Front(ops), id).Some? ==> RowOk(Now(Front(ops), id).value)
  {
    hide Exec, WellFormed, HistoryOk;
    ReachableInv(Front(ops));
  }

  /** A job that is not there, in a run that never dropped it, has never been claimed. */
  lemma {:induction false} NeverStartedYet(ops: seq<Op>, id: JobId)
    requires WellFormedRun(ops) && AlwaysFailing(ops, id) && Now(ops, id).None?
    ensures Count(ops, id, {Started}) == 0
  {
    hide Exec, EventOf, WellFormed, RowOk;
    if ops != [] {
      LastChange(ops, id);
      NeverStartedYet(Front(ops), id);
    }
  }
}
