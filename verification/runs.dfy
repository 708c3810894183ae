/**
 Runs: sequences of driver calls from the empty store, and what every run does to one job. A step has one event
 per job; `StepChange` says what the event does to the row, and the laws below are inductions over a run.
 */
module Runs {
  import opened Types
  import opened RowSteps
  import opened RowInvariant
  import opened JobStore
  import opened StoreInvariant
  import opened Refinement

  ghost function Exec(ops: seq<Op>): Store {
    if ops == [] then EMPTY else Apply(Exec(Front(ops)), Last(ops))
  }

  function RowAt(s: Store, id: JobId): Option<Row> {
    if id in s.jobs then Some(s.jobs[id]) else None
  }

  datatype Event =
    | Idle
    | Added
    | Started
    | Finished
    | FailedRunning
    | FailedWaiting
    | Deferred
    | Requeued
    | Reset
    | Withdrawn
    | DroppedRunning
    | Dropped

  /** What a step does to one job. */
  ghost function EventOf(s: Store, op: Op, id: JobId): Event {
    match op
    case Enqueue(rows) => if !Clashes(s, rows) && s.nextId < id <= s.nextId + |rows| then Added else Idle
    case Claim(q, node, max, now) => if id in Picked(s, q, max, now) then Started else Idle
    case Complete(i, _, _) => if i == id && id in s.jobs && s.jobs[id].state.Running? then Finished else Idle
    case Fail(i, _, _) =>
      if i == id && id in s.jobs && s.jobs[id].state.Running? then FailedRunning
      else if i == id && id in s.jobs && s.jobs[id].state.Retryable? then FailedWaiting
      else Idle
    case ScheduleRetry(i, _, _, _) => if i == id && id in s.jobs && s.jobs[id].state.Running? then Deferred else Idle
    case Retry(i, _) => if i == id && id in s.jobs && CanRetry(s.jobs[id]) then Reset else Idle
    case RetryBatch(ids, _) => if id in Reached(s.jobs, ids, CanRetry) then Reset else Idle
    case Cancel(i, _) => if i == id && id in s.jobs && CanCancel(s.jobs[id]) then Withdrawn else Idle
    case CancelBatch(ids, _) => if id in Reached(s.jobs, ids, CanCancel) then Withdrawn else Idle
    case RequeueStale(timeout, now) => if id in Stale(s, now - timeout) then Requeued else Idle
    case Prune(before, states) =>
      if states != {} && id in Prunable(s, before, states) then
        if s.jobs[id].state.Running? then DroppedRunning else Dropped
      else Idle
  }

  /** The row before and after an event of a step. */
  ghost predicate Change(ev: Event, op: Op, before: Option<Row>, after: Option<Row>) {
    match ev
    case Idle => after == before
    case Added => before.None? && after.Some? && InitialRow(after.value)
    case Started =>
      && op.Claim? && before.Some? && Ready(before.value)
      && before.value.spec.queue == op.queue && before.value.scheduledAt <= op.now
      && after == Some(ClaimRow(before.value, op.node, op.now))
    case Finished =>
      && op.Complete? && before.Some? && before.value.state.Running?
      && after == Some(CompleteRow(before.value, op.output, op.now))
    case FailedRunning =>
      && op.Fail? && before.Some? && before.value.state.Running?
      && after == Some(FailRow(before.value, op.message, op.now))
    case FailedWaiting =>
      && op.Fail? && before.Some? && before.value.state.Retryable?
      && after == Some(FailRow(before.value, op.message, op.now))
    case Deferred =>
      && op.ScheduleRetry? && before.Some? && before.value.state.Running?
      && after == Some(ScheduleRetryRow(before.value, op.message, op.at, op.now))
    case Requeued =>
      && op.RequeueStale? && before.Some? && before.value.state.Running?
      && before.value.attemptedAt.Some? && before.value.attemptedAt.value + op.timeout <= op.now
      && after == Some(RequeueRow(before.value, op.now))
    case Reset =>
      && (op.Retry? || op.RetryBatch?) && before.Some? && CanRetry(before.value)
      && after == Some(RetryRow(before.value, op.now))
    case Withdrawn =>
      && (op.Cancel? || op.CancelBatch?) && before.Some? && CanCancel(before.value)
      && after == Some(CancelRow(before.value, op.now))
    case DroppedRunning => op.Prune? && before.Some? && before.value.state.Running? && after == None
    case Dropped => op.Prune? && before.Some? && !before.value.state.Running? && after == None
  }

  // ---------------------------------------------------------------- one step, one job

  lemma {:induction false} InsertAllAt(s: Store, rows: seq<Row>, id: JobId)
    ensures InsertAll(s, rows).nextId == s.nextId + |rows|
    ensures s.nextId < id <= s.nextId + |rows| ==>
              RowAt(InsertAll(s, rows), id) == Some(rows[id - s.nextId - 1].(id := id))
    ensures !(s.nextId < id <= s.nextId + |rows|) ==> RowAt(InsertAll(s, rows), id) == RowAt(s, id)
  {
    if rows != [] {
      InsertAllAt(s, Front(rows), id);
    }
  }

  lemma EnqueueChange(s: Store, rows: seq<Row>, id: JobId)
    requires KeysOk(s) && forall k :: 0 <= k < |rows| ==> InitialRow(rows[k])
    ensures Change(EventOf(s, Enqueue(rows), id), Enqueue(rows), RowAt(s, id), RowAt(EnqueueStore(s, rows), id))
  {
    hide Clashes, InsertAll;
    InsertAllAt(s, rows, id);
  }

  lemma ClaimChange(s: Store, q: string, node: string, max: int, now: Time, id: JobId)
    requires DueOk(s)
    ensures
      var op := Claim(q, node, max, now);
      Change(EventOf(s, op, id), op, RowAt(s, id), RowAt(ClaimStore(s, q, node, max, now), id))
  {
    hide ClaimStore, Picked, ClaimRow, Ready;
    StartedRowsAre(s, q, node, max, now);
    PickedReady(s, q, max, now);
  }

  lemma FinishChange(s: Store, op: Op, id: JobId)
    requires op.Complete? || op.Fail? || op.ScheduleRetry?
    ensures Change(EventOf(s, op, id), op, RowAt(s, id), RowAt(Apply(s, op), id))
  {
    hide CompleteRow, FailRow, ScheduleRetryRow;
  }

  lemma RetryChange(s: Store, op: Op, id: JobId)
    requires op.Retry? || op.RetryBatch?
    ensures Change(EventOf(s, op, id), op, RowAt(s, id), RowAt(Apply(s, op), id))
  {
    hide RetryStore, RetryRow, CanRetry;
    RetriedRows(s, if op.Retry? then [op.id] else op.ids, op.now);
  }

  lemma CancelChange(s: Store, op: Op, id: JobId)
    requires op.Cancel? || op.CancelBatch?
    ensures Change(EventOf(s, op, id), op, RowAt(s, id), RowAt(Apply(s, op), id))
  {
    hide CancelStore, CancelRow, CanCancel;
    CancelledRows(s, if op.Cancel? then [op.id] else op.ids, op.now);
  }

  lemma RequeueChange(s: Store, timeout: int, now: Time, id: JobId)
    requires RunningOk(s)
    ensures
      var op := RequeueStale(timeout, now);
      Change(EventOf(s, op, id), op, RowAt(s, id), RowAt(RequeueStaleStore(s, timeout, now), id))
  {
    hide RequeueStaleStore, RequeueRow;
    RequeuedRows(s, timeout, now);
  }

  lemma PruneChange(s: Store, before: Time, states: set<State>, id: JobId)
    ensures
      var op := Prune(before, states);
      Change(EventOf(s, op, id), op, RowAt(s, id), RowAt(PruneStore(s, before, states), id))
  {}

  /** Every step does to every job what its event says. */
  lemma StepChange(s: Store, op: Op, id: JobId)
    requires Inv(s) && WellFormed(op)
    ensures Change(EventOf(s, op, id), op, RowAt(s, id), RowAt(Apply(s, op), id))
  {
    hide KeysOk, UuidsOk, DueOk, RunningOk, RowsOk, Change, EventOf, RowAt,
      EnqueueStore, ClaimStore, RequeueStaleStore, PruneStore, CompleteStore, FailStore, ScheduleRetryStore,
      RetryStore, CancelStore;
    match op
    case Enqueue(rows) => EnqueueChange(s, rows, id);
    case Claim(q, node, max, now) => ClaimChange(s, q, node, max, now, id);
    case RequeueStale(timeout, now) => RequeueChange(s, timeout, now, id);
    case Prune(before, states) => PruneChange(s, before, states, id);
    case _ =>
      if op.Retry? || op.RetryBatch? {
        RetryChange(s, op, id);
      } else if op.Cancel? || op.CancelBatch? {
        CancelChange(s, op, id);
      } else {
        FinishChange(s, op, id);
      }
  }

  // ---------------------------------------------------------------- runs

  /** The index invariant holds in every reachable store. */
  lemma {:induction false} ReachableInv(ops: seq<Op>)
    requires WellFormedRun(ops)
    ensures Inv(Exec(ops))
  {
    hide Inv, Apply, WellFormed;
    if ops == [] {
      EmptyInv();
    } else {
      ReachableInv(Front(ops));
      ApplyInv(Exec(Front(ops)), Last(ops));
    }
  }

  ghost function Now(ops: seq<Op>, id: JobId): Option<Row> {
    RowAt(Exec(ops), id)
  }

  /** The event of the last step of a nonempty run. */
  ghost function LastEvent(ops: seq<Op>, id: JobId): Event
    requires ops != []
  {
    EventOf(Exec(Front(ops)), Last(ops), id)
  }

  /** The last step of a run, seen from one job. */
  lemma LastChange(ops: seq<Op>, id: JobId)
    requires WellFormedRun(ops) && ops != []
    ensures WellFormedRun(Front(ops))
    ensures Change(LastEvent(ops, id), Last(ops), Now(Front(ops), id), Now(ops, id))
    ensures Now(ops, id).Some? ==> RowOk(Now(ops, id).value)
  {
    hide Change, EventOf, RowOk, WellFormed;
    ReachableInv(Front(ops));
    StepChange(Exec(Front(ops)), Last(ops), id);
    ReachableInv(ops);
  }

  /** How often the events in `evs` have happened to a job. */
  ghost function Count(ops: seq<Op>, id: JobId, evs: set<Event>): nat {
    if ops == [] then 0 else Count(Front(ops), id, evs) + (if LastEvent(ops, id) in evs then 1 else 0)
  }

  ghost predicate IsRunningNow(ops: seq<Op>, id: JobId) {
    Now(ops, id).Some? && Now(ops, id).value.state.Running?
  }

  const ENDINGS: set<Event> := {Finished, FailedRunning, Deferred, Requeued, DroppedRunning}

  /** Claims balance: every claim has ended in exactly one of five ways, except the one now running. */
  lemma {:induction false} ClaimsBalance(ops: seq<Op>, id: JobId)
    requires WellFormedRun(ops)
    ensures Count(ops, id, {Started}) == Count(ops, id, ENDINGS) + (if IsRunningNow(ops, id) then 1 else 0)
  {
    hide Exec, EventOf, RowOk, WellFormed;
    if ops == [] {
      EmptyRun(id);
    } else {
      LastChange(ops, id);
      ClaimsBalance(Front(ops), id);
    }
  }

  lemma EmptyRun(id: JobId)
    ensures Now([], id).None?
  {}

  // ---------------------------------------------------------------- claims since the last reset

  /** Claims since the job was added or last retried by hand. */
  ghost function ClaimsSinceReset(ops: seq<Op>, id: JobId): nat {
    if ops == [] then 0
    else match LastEvent(ops, id)
      case Added => 0
      case Reset => 0
      case Started => ClaimsSinceReset(Front(ops), id) + 1
      case _ => ClaimsSinceReset(Front(ops), id)
  }

  /** Changes to the job's row since it was added or last retried by hand. */
  ghost function ChangesSinceReset(ops: seq<Op>, id: JobId): nat {
    if ops == [] then 0
    else match LastEvent(ops, id)
      case Added => 0
      case Reset => 0
      case Idle => ChangesSinceReset(Front(ops), id)
      case _ => ChangesSinceReset(Front(ops), id) + 1
  }

  /** Two changes per finished claim, one for a running one, and at most one more that ends the job. */
  ghost predicate Spent(r: Row, changes: nat) {
    if r.state.Failed? then 2 * r.attempt <= changes <= 2 * r.attempt + 1
    else if r.state.Cancelled? then changes == 2 * r.attempt + 1
    else if r.state.Running? then changes == 2 * r.attempt - 1
    else changes == 2 * r.attempt
  }

  /**
   Between resets a job is claimed `attempt` times, never more than its maximum, and its row changes at most
   2 * max_attempts + 1 times: whatever workers and operators do, only a manual Retry lets it go on.
   */
  lemma {:induction false} BoundedBetweenResets(ops: seq<Op>, id: JobId)
    requires WellFormedRun(ops) && Now(ops, id).Some?
    ensures var r := Now(ops, id).value;
            && r.attempt == ClaimsSinceReset(ops, id) <= Cap(r)
            && Spent(r, ChangesSinceReset(ops, id))
            && ChangesSinceReset(ops, id) <= 2 * Cap(r) + 1
  {
    hide Exec, EventOf, WellFormed, HistoryOk;
    if ops == [] {
      EmptyRun(id);
    } else {
      LastChange(ops, id);
      if Now(Front(ops), id).Some? {
        BoundedBetweenResets(Front(ops), id);
      }
    }
  }

  // ---------------------------------------------------------------- claimers

  /** Every node that has claimed the job, in order, since it was added. */
  ghost function Claimers(ops: seq<Op>, id: JobId): seq<string> {
    if ops == [] then []
    else match LastEvent(ops, id)
      case Added => []
      case Started => Claimers(Front(ops), id) + (if Last(ops).Claim? then [Last(ops).node] else [])
      case _ => Claimers(Front(ops), id)
  }

  function LastFifty(xs: seq<string>): seq<string> {
    if |xs| <= 50 then xs else xs[|xs| - 50..]
  }

  lemma PushKeepsLastFifty(xs: seq<string>, node: string)
    ensures PushClaimer(LastFifty(xs), node) == LastFifty(xs + [node])
  {}

  lemma {:induction false} AttemptedByIs(ops: seq<Op>, id: JobId)
    requires WellFormedRun(ops) && Now(ops, id).Some?
    ensures Now(ops, id).value.attemptedBy == LastFifty(Claimers(ops, id))
  {
    hide Exec, EventOf, WellFormed, RowOk, PushClaimer, LastFifty;
    if ops == [] {
      EmptyRun(id);
    } else {
      LastChange(ops, id);
      if Now(Front(ops), id).Some? {
        AttemptedByIs(Front(ops), id);
        PushKeepsLastFifty(Claimers(Front(ops), id), if Last(ops).Claim? then Last(ops).node else "");
      } else {
        assert LastEvent(ops, id) == Added;
        NoClaimersYet();
      }
    }
  }

  lemma NoClaimersYet()
    ensures LastFifty([]) == []
  {}

  /** attempted_by is the last fifty claimers, and a running row belongs to the last of them. */
  lemma AttemptedByIsLastFifty(ops: seq<Op>, id: JobId)
    requires WellFormedRun(ops) && Now(ops, id).Some?
    ensures var r := Now(ops, id).value;
            && r.attemptedBy == LastFifty(Claimers(ops, id))
            && (r.state.Running? ==> Claimers(ops, id) != [] && r.nodeId == Last(Claimers(ops, id)))
  {
    hide Exec, EventOf, WellFormed, HistoryOk, Claimers, KeysOk, UuidsOk, DueOk, RunningOk;
    AttemptedByIs(ops, id);
    ReachableInv(ops);
  }

  /**
   When the current series of claims began: a put-off or manually retried job starts a new one, a requeued job does
   not.
   */
  ghost function SeriesStart(ops: seq<Op>, id: JobId): Option<Time> {
    if ops == [] then None
    else match LastEvent(ops, id)
      case Added => None
      case Deferred => None
      case Reset => None
      case Started =>
        var before := SeriesStart(Front(ops), id);
        if before.None? && Last(ops).Claim? then Some(Last(ops).now) else before
      case _ => SeriesStart(Front(ops), id)
  }

  /** started_at is the time of the first claim of the current series. */
  lemma {:induction false} StartedAtIsSeriesStart(ops: seq<Op>, id: JobId)
    requires WellFormedRun(ops) && Now(ops, id).Some?
    ensures Now(ops, id).value.startedAt == SeriesStart(ops, id)
  {
    hide Exec, EventOf, WellFormed, RowOk;
    if ops == [] {
      EmptyRun(id);
    } else {
      LastChange(ops, id);
      if Now(Front(ops), id).Some? {
        StartedAtIsSeriesStart(Front(ops), id);
      }
    }
  }

  /** The last claim that the row still tells of: cleared when the job is put off or retried by hand. */
  ghost function LastClaim(ops: seq<Op>, id: JobId): Option<Time> {
    if ops == [] then None
    else match LastEvent(ops, id)
      case Added => None
      case Deferred => None
      case Reset => None
      case Started => if Last(ops).Claim? then Some(Last(ops).now) else None
      case _ => LastClaim(Front(ops), id)
  }

  /** The node of that claim; a stale requeue forgets it too. */
  ghost function LastNode(ops: seq<Op>, id: JobId): string {
    if ops == [] then ""
    else match LastEvent(ops, id)
      case Added => ""
      case Deferred => ""
      case Reset => ""
      case Requeued => ""
      case Started => if Last(ops).Claim? then Last(ops).node else ""
      case _ => LastNode(Front(ops), id)
  }

  /** attempted_at and node_id tell of the last claim, also after the job has been completed or failed. */
  lemma {:induction false} LastClaimIsKept(ops: seq<Op>, id: JobId)
    requires WellFormedRun(ops) && Now(ops, id).Some?
    ensures Now(ops, id).value.attemptedAt == LastClaim(ops, id) && Now(ops, id).value.nodeId == LastNode(ops, id)
  {
    hide Exec, EventOf, WellFormed, RowOk, PushClaimer;
    if ops == [] {
      EmptyRun(id);
    } else {
      LastChange(ops, id);
      if Now(Front(ops), id).Some? {
        LastClaimIsKept(Front(ops), id);
      }
    }
  }

  // ---------------------------------------------------------------- one claim at a time

  ghost function EventAt(ops: seq<Op>, id: JobId, k: nat): Event
    requires k < |ops|
  {
    EventOf(Exec(ops[..k]), ops[k], id)
  }

  /** Until an ending event, a claimed job keeps running under that claim, and its row does not change. */
  lemma {:induction false} StaysRunning(ops: seq<Op>, id: JobId, i: nat, k: nat)
    requires WellFormedRun(ops) && i < k <= |ops|
    requires EventAt(ops, id, i) == Started && ops[i].Claim?
    requires forall m :: i < m < k ==> EventAt(ops, id, m) !in ENDINGS
    ensures Now(ops[..k], id).Some?
    ensures
      var r := Now(ops[..k], id).value;
      r.state.Running? && r.nodeId == ops[i].node && r.attemptedAt == Some(ops[i].now)
    ensures Now(ops[..k], id) == Now(ops[..i + 1], id)
    decreases k
  {
    hide Exec, EventOf, WellFormed, RowOk;
    var run := ops[..k];
    assert Front(run) == ops[..k - 1] && Last(run) == ops[k - 1];
    LastChange(run, id);
    if k - 1 > i {
      StaysRunning(ops, id, i, k - 1);
      assert EventAt(ops, id, k - 1) !in ENDINGS;
    }
  }

  /** A job that is not running runs again only after a claim. */
  lemma {:induction false} RunsOnlyAfterClaim(ops: seq<Op>, id: JobId, m: nat, k: nat) returns (n: nat)
    requires WellFormedRun(ops) && m <= k <= |ops|
    requires !IsRunningNow(ops[..m], id) && IsRunningNow(ops[..k], id)
    ensures m <= n < k && EventAt(ops, id, n) == Started
    decreases k
  {
    hide Exec, EventOf, WellFormed, RowOk;
    ChangeAt(ops, id, k - 1);
    assert ops[..k - 1 + 1] == ops[..k];
    n := k - 1;
    if EventAt(ops, id, k - 1) != Started {
      n := RunsOnlyAfterClaim(ops, id, m, k - 1);
    }
  }

  /** A job that has been dropped does not come back. */
  lemma {:induction false} GoneStaysGone(ops: seq<Op>, id: JobId, j: nat, m: nat, k: nat)
    requires WellFormedRun(ops) && j <= m <= k <= |ops|
    requires Now(ops[..j], id).Some? && Now(ops[..m], id).None?
    ensures Now(ops[..k], id).None?
    decreases k
  {
    hide Exec, WellFormed, RowOk;
    if m < k {
      GoneStaysGone(ops, id, j, m, k - 1);
      ChangeAt(ops, id, k - 1);
      assert ops[..k - 1 + 1] == ops[..k];
      if EventAt(ops, id, k - 1) == Added {
        IdsAreNeverReused(ops, j, k - 1, id);
      }
    }
  }

  /** Two claims of one job are separated by a step that ended the first. */
  lemma ClaimsAreSeparated(ops: seq<Op>, id: JobId, i: nat, j: nat)
    requires WellFormedRun(ops) && i < j < |ops|
    requires EventAt(ops, id, i) == Started && EventAt(ops, id, j) == Started
    ensures exists m :: i < m < j && EventAt(ops, id, m) in ENDINGS
  {
    hide Exec, EventOf, WellFormed, RowOk;
    ChangeAt(ops, id, i);
    ChangeAt(ops, id, j);
    if forall m :: i < m < j ==> EventAt(ops, id, m) !in ENDINGS {
      StaysRunning(ops, id, i, j);
      assert false;
    }
  }

  lemma ChangeAt(ops: seq<Op>, id: JobId, k: nat)
    requires WellFormedRun(ops) && k < |ops|
    ensures Change(EventAt(ops, id, k), ops[k], Now(ops[..k], id), Now(ops[..k + 1], id))
  {
    hide Exec, EventOf, WellFormed, RowOk, Change;
    assert Front(ops[..k + 1]) == ops[..k];
    LastChange(ops[..k + 1], id);
  }

  /** A stale requeue ends a claim only once the timeout has passed since that claim. */
  lemma StaleOnlyAfterTimeout(ops: seq<Op>, id: JobId, i: nat, k: nat)
    requires WellFormedRun(ops) && i < k < |ops|
    requires EventAt(ops, id, i) == Started && EventAt(ops, id, k) == Requeued
    requires forall m :: i < m < k ==> EventAt(ops, id, m) !in ENDINGS
    ensures ops[i].Claim? && ops[k].RequeueStale? && ops[i].now + ops[k].timeout <= ops[k].now
  {
    hide Exec, EventOf, WellFormed, RowOk;
    ChangeAt(ops, id, i);
    ChangeAt(ops, id, k);
    StaysRunning(ops, id, i, k);
  }

  // ---------------------------------------------------------------- ids

  lemma NextIdGrows(s: Store, op: Op)
    ensures Apply(s, op).nextId >= s.nextId
  {
    if op.Enqueue? {
      InsertAllAt(s, op.rows, 0);
    }
  }

  lemma {:induction false} NextIdGrowsOverRuns(ops: seq<Op>, j: nat, k: nat)
    requires j <= k <= |ops|
    ensures Exec(ops[..j]).nextId <= Exec(ops[..k]).nextId
    decreases k
  {
    hide Apply;
    if j < k {
      NextIdGrowsOverRuns(ops, j, k - 1);
      assert Front(ops[..k]) == ops[..k - 1];
      NextIdGrows(Exec(ops[..k - 1]), ops[k - 1]);
    }
  }

  /** A batch gets ids that no job had before in the run, not even one pruned since. */
  lemma IdsAreNeverReused(ops: seq<Op>, j: nat, k: nat, id: JobId)
    requires WellFormedRun(ops) && j <= k < |ops| && ops[k].Enqueue?
    requires id in Exec(ops[..j]).jobs
    ensures EventAt(ops, id, k) != Added
    ensures forall n :: 0 <= n < |ops[k].rows| ==> id < FreshIds(Exec(ops[..k]), |ops[k].rows|)[n]
  {
    hide Apply, Exec, WellFormed, UuidsOk, DueOk, RunningOk, RowsOk;
    ReachableInv(ops[..j]);
    NextIdGrowsOverRuns(ops, j, k);
  }
}
