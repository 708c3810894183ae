/** What every row of a reachable store satisfies, and that every row step keeps it. */
module RowInvariant {
  import opened Types
  import opened RowSteps

  /**
   The error history: attempts in order, within 1..attempt, all below `attempt` while the row runs, ending in
   `attempt` when it is retryable or failed. Only a failed row can hold one attempt twice, as its last two entries.
   */
  ghost predicate HistoryOk(r: Row) {
    var e := r.errors;
    && (forall k :: 0 <= k < |e| ==> 1 <= e[k].attempt <= r.attempt)
    && (forall j, k :: 0 <= j < k < |e| ==>
          || e[j].attempt < e[k].attempt
          || (e[j].attempt == e[k].attempt && r.state.Failed? && k == |e| - 1 && j == |e| - 2))
    && (r.state.Running? ==> forall k :: 0 <= k < |e| ==> e[k].attempt < r.attempt)
    && (r.state.Retryable? || r.state.Failed? ==> |e| > 0 && e[|e| - 1].attempt == r.attempt)
  }

  ghost predicate RowOk(r: Row) {
    && 0 <= r.attempt <= Cap(r)
    && (r.finalizedAt.Some? <==> r.state.Terminal())
    && (r.completedAt.Some? <==> r.state.Completed? || r.state.Failed?)
    && (r.state.Running? ==> r.attempt >= 1 && r.attemptedAt.Some?)
    && (r.state.Running? ==> r.attemptedBy != [] && r.nodeId == Last(r.attemptedBy))
    && (r.state.Claimable() || r.state.Pending? ==> r.nodeId == "")
    && (r.state.Pending? || r.state.Scheduled? ==> r.attempt == 0)
    && |r.attemptedBy| <= MAX_CLAIMERS
    && HistoryOk(r)
  }

  lemma InitialRowOk(r: Row, id: JobId)
    requires InitialRow(r)
    ensures RowOk(r.(id := id))
  {}

  lemma ClaimRowOk(r: Row, node: string, now: Time)
    requires RowOk(r) && Ready(r)
    ensures RowOk(ClaimRow(r, node, now))
  {}

  lemma CompleteRowOk(r: Row, output: string, now: Time)
    requires RowOk(r) && r.state.Running?
    ensures RowOk(CompleteRow(r, output, now))
  {}

  lemma FailRowOk(r: Row, message: string, now: Time)
    requires RowOk(r) && CanFail(r)
    ensures RowOk(FailRow(r, message, now))
  {}

  lemma ScheduleRetryRowOk(r: Row, message: string, due: Time, now: Time)
    requires RowOk(r) && r.state.Running?
    ensures RowOk(ScheduleRetryRow(r, message, due, now))
  {}

  lemma RetryRowOk(r: Row, now: Time)
    requires RowOk(r) && CanRetry(r)
    ensures RowOk(RetryRow(r, now))
  {}

  lemma CancelRowOk(r: Row, now: Time)
    requires RowOk(r) && CanCancel(r)
    ensures RowOk(CancelRow(r, now))
  {}

  lemma RequeueRowOk(r: Row, now: Time)
    requires RowOk(r) && r.state.Running?
    ensures RowOk(RequeueRow(r, now))
  {}

  /** A row never records more errors than claims, except that a failed row may record one more. */
  lemma ErrorsBounded(r: Row)
    requires RowOk(r)
    ensures |r.errors| <= r.attempt + (if r.state.Failed? then 1 else 0)
  {
    var n := if r.state.Failed? && |r.errors| > 0 then |r.errors| - 1 else |r.errors|;
    if n > 0 {
      AttemptsClimb(r, n - 1);
    }
  }

  lemma {:induction false} AttemptsClimb(r: Row, k: nat)
    requires RowOk(r)
    requires k < |r.errors| && (r.state.Failed? ==> k < |r.errors| - 1)
    ensures r.errors[k].attempt >= k + 1
  {
    if k > 0 {
      AttemptsClimb(r, k - 1);
    }
  }
}
