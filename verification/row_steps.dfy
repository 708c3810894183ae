/**
 What one driver operation does to one row. The Redis scripts and the SQL statements are both
 written in terms of columns; the functions below are the Redis columns, and `SqlTable` has the SQL ones.
 */
module RowSteps {
  import opened Types

  const MAX_CLAIMERS := 50

  /** Appends a claimer, dropping the oldest one once the list is full. */
  function PushClaimer(claimers: seq<string>, node: string): seq<string> {
    (if |claimers| >= MAX_CLAIMERS then claimers[1..] else claimers) + [node]
  }

  predicate Ready(r: Row) {
    r.state.Claimable() && r.attempt < r.spec.maxAttempts
  }

  function ClaimRow(r: Row, node: string, now: Time): Row {
    r.(state := Running,
       attempt := r.attempt + 1,
       attemptedAt := Some(now),
       startedAt := if r.startedAt.None? then Some(now) else r.startedAt,
       nodeId := node,
       attemptedBy := PushClaimer(r.attemptedBy, node))
  }

  function CompleteRow(r: Row, output: string, now: Time): Row {
    r.(state := Completed, output := Some(output), completedAt := Some(now), finalizedAt := Some(now))
  }

  predicate CanFail(r: Row) {
    r.state.Running? || r.state.Retryable?
  }

  function FailRow(r: Row, message: string, now: Time): Row {
    r.(state := Failed,
       errors := r.errors + [AttemptError(r.attempt, message, now)],
       completedAt := Some(now),
       finalizedAt := Some(now))
  }

  function ScheduleRetryRow(r: Row, message: string, due: Time, now: Time): Row {
    r.(state := Retryable,
       scheduledAt := due,
       nodeId := "",
       attemptedAt := None,
       startedAt := None,
       completedAt := None,
       finalizedAt := None,
       output := None,
       errors := r.errors + [AttemptError(r.attempt, message, now)])
  }

  predicate CanRetry(r: Row) {
    r.state.Failed? || r.state.Completed? || r.state.Cancelled? || r.state.Retryable?
  }

  function RetryRow(r: Row, now: Time): Row {
    r.(state := Available,
       scheduledAt := now,
       nodeId := "",
       attempt := 0,
       errors := [],
       startedAt := None,
       attemptedAt := None,
       completedAt := None,
       finalizedAt := None,
       output := None)
  }

  predicate CanCancel(r: Row) {
    r.state.Available? || r.state.Pending? || r.state.Scheduled? || r.state.Retryable?
  }

  function CancelRow(r: Row, now: Time): Row {
    r.(state := Cancelled, finalizedAt := Some(now))
  }

  function RequeueRow(r: Row, now: Time): Row {
    r.(state := Available, nodeId := "", scheduledAt := now)
  }
}
