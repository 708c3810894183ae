/** The SQL driver's job statements on one flat table, column by column as the statements write them. */
module SqlTable {
  import opened Types
  import opened RowSteps
  import opened Selection
  import opened JobStore

  type Table = map<JobId, Row>

  /** Postgres: `array_append(CASE WHEN length >= 50 THEN a[length - 48:] ELSE a END, node)`. */
  function SqlPushClaimer(claimers: seq<string>, node: string): seq<string> {
    (if |claimers| >= MAX_CLAIMERS then claimers[|claimers| - 49..] else claimers) + [node]
  }

  /** The slice that Postgres keeps gives the list Redis keeps exactly for lists that are not over-full. */
  lemma ClaimersAgreeIff(claimers: seq<string>, node: string)
    ensures SqlPushClaimer(claimers, node) == PushClaimer(claimers, node) <==> |claimers| <= 50
  {
    if |claimers| > MAX_CLAIMERS {
      assert |SqlPushClaimer(claimers, node)| < |PushClaimer(claimers, node)|;
    }
  }

  function SqlInsertRow(r: Row, id: JobId): Row {
    r.(id := id,
       attemptedAt := None,
       output := None,
       startedAt := None,
       completedAt := None,
       finalizedAt := None,
       nodeId := "")
  }

  function SqlClaimRow(r: Row, node: string, now: Time): Row {
    r.(state := Running,
       attempt := r.attempt + 1,
       attemptedAt := Some(now),
       startedAt := if r.startedAt.Some? then r.startedAt else Some(now),
       nodeId := node,
       attemptedBy := SqlPushClaimer(r.attemptedBy, node))
  }

  function SqlCompleteRow(r: Row, output: string, now: Time): Row {
    r.(state := Completed, output := Some(output), completedAt := Some(now), finalizedAt := Some(now), nodeId := "")
  }

  function SqlFailRow(r: Row, message: string, now: Time): Row {
    r.(state := Failed,
       errors := r.errors + [AttemptError(r.attempt, message, now)],
       finalizedAt := Some(now),
       completedAt := Some(now),
       nodeId := "")
  }

  function SqlScheduleRetryRow(r: Row, message: string, at: Time, now: Time): Row {
    r.(state := Retryable,
       errors := r.errors + [AttemptError(r.attempt, message, now)],
       scheduledAt := at,
       nodeId := "",
       attemptedAt := None,
       startedAt := None,
       completedAt := None,
       finalizedAt := None,
       output := None)
  }

  function SqlRetryRow(r: Row, now: Time): Row {
    r.(state := Available,
       scheduledAt := now,
       nodeId := "",
       attempt := 0,
       errors := [],
       attemptedBy := [],
       attemptedAt := None,
       startedAt := None,
       completedAt := None,
       finalizedAt := None,
       output := None)
  }

  function SqlCancelRow(r: Row, now: Time): Row {
    r.(state := Cancelled, finalizedAt := Some(now), nodeId := "")
  }

  function SqlRequeueRow(r: Row, now: Time): Row {
    r.(state := Available, nodeId := "", scheduledAt := now, attemptedAt := None, startedAt := None)
  }

  // ---------------------------------------------------------------- statements

  /** The UNIQUE constraint on uuid, against the table and within the batch. */
  ghost predicate SqlClashes(t: Table, rows: seq<Row>) {
    exists k :: 0 <= k < |rows| && SqlClashAt(t, rows, k)
  }

  ghost predicate SqlClashAt(t: Table, rows: seq<Row>, k: nat)
    requires k < |rows|
  {
    || (exists i :: i in t && t[i].spec.uuid == rows[k].spec.uuid)
    || (exists j :: 0 <= j < k && rows[j].spec.uuid == rows[k].spec.uuid)
  }

  /** The database hands out the ids after `lastId`. */
  ghost function SqlEnqueue(t: Table, rows: seq<Row>, lastId: nat): Table {
    if SqlClashes(t, rows) then t else SqlInsertAll(t, rows, lastId)
  }

  function SqlInsertAll(t: Table, rows: seq<Row>, lastId: nat): Table {
    if rows == [] then t
    else
      var id := lastId + |rows|;
      SqlInsertAll(t, Front(rows), lastId)[id := SqlInsertRow(Last(rows), id)]
  }

  /** `WHERE queue = q AND state IN (...) AND scheduled_at <= now AND attempt < max_attempts`, with the sort columns. */
  function Eligible(t: Table, q: string, now: Time): (ranks: map<JobId, Rank>)
    ensures WellRanked(ranks)
  {
    map i | i in t && t[i].spec.queue == q && t[i].state.Claimable() && t[i].scheduledAt <= now &&
        t[i].attempt < t[i].spec.maxAttempts
      :: Rank(t[i].spec.priority, t[i].scheduledAt, i)
  }

  ghost function SqlPicked(t: Table, q: string, max: int, now: Time): (picked: seq<JobId>)
    ensures forall i :: i in picked ==> i in t
  {
    if max <= 0 then []
    else
      FirstIsDistinct(Eligible(t, q, now), max);
      First(Eligible(t, q, now), max)
  }

  ghost function SqlClaim(t: Table, q: string, node: string, max: int, now: Time): Table {
    var picked := SqlPicked(t, q, max, now);
    map i | i in t :: if i in picked then SqlClaimRow(t[i], node, now) else t[i]
  }

  function SqlComplete(t: Table, id: JobId, output: string, now: Time): Table {
    if id in t && t[id].state.Running? then t[id := SqlCompleteRow(t[id], output, now)] else t
  }

  function SqlFail(t: Table, id: JobId, message: string, now: Time): Table {
    if id in t && CanFail(t[id]) then t[id := SqlFailRow(t[id], message, now)] else t
  }

  function SqlScheduleRetry(t: Table, id: JobId, message: string, at: Time, now: Time): Table {
    if id in t && t[id].state.Running? then t[id := SqlScheduleRetryRow(t[id], message, at, now)] else t
  }

  function SqlRetry(t: Table, id: JobId, now: Time): Table {
    if id in t && CanRetry(t[id]) then t[id := SqlRetryRow(t[id], now)] else t
  }

  /** One UPDATE per id, in one transaction. */
  function SqlRetryBatch(t: Table, ids: seq<JobId>, now: Time): Table {
    if ids == [] then t else SqlRetry(SqlRetryBatch(t, Front(ids), now), Last(ids), now)
  }

  function SqlCancel(t: Table, id: JobId, now: Time): Table {
    if id in t && CanCancel(t[id]) then t[id := SqlCancelRow(t[id], now)] else t
  }

  function SqlCancelBatch(t: Table, ids: seq<JobId>, now: Time): Table {
    if ids == [] then t else SqlCancel(SqlCancelBatch(t, Front(ids), now), Last(ids), now)
  }

  /** `state = 'running' AND COALESCE(attempted_at, started_at) < cutoff`; a comparison with NULL is not true. */
  predicate IsStale(r: Row, cutoff: Time) {
    && r.state.Running?
    && (if r.attemptedAt.Some? then r.attemptedAt.value < cutoff else r.startedAt.Some? && r.startedAt.value < cutoff)
  }

  function SqlStale(t: Table, cutoff: Time): set<JobId> {
    set i | i in t && IsStale(t[i], cutoff)
  }

  function SqlRequeueStale(t: Table, timeout: int, now: Time): Table {
    map i | i in t :: if IsStale(t[i], now - timeout) then SqlRequeueRow(t[i], now) else t[i]
  }

  function SqlPrunable(t: Table, before: Time, states: set<State>): set<JobId> {
    set i | i in t && t[i].spec.createdAt < before && t[i].state in states
  }

  function SqlPrune(t: Table, before: Time, states: set<State>): Table {
    if states == {} then t else t - SqlPrunable(t, before, states)
  }

  ghost function SqlApply(t: Table, op: Op, lastId: nat): Table {
    match op
    case Enqueue(rows) => SqlEnqueue(t, rows, lastId)
    case Claim(q, node, max, now) => SqlClaim(t, q, node, max, now)
    case Complete(id, output, now) => SqlComplete(t, id, output, now)
    case Fail(id, message, now) => SqlFail(t, id, message, now)
    case ScheduleRetry(id, message, at, now) => SqlScheduleRetry(t, id, message, at, now)
    case Retry(id, now) => SqlRetry(t, id, now)
    case RetryBatch(ids, now) => SqlRetryBatch(t, ids, now)
    case Cancel(id, now) => SqlCancel(t, id, now)
    case CancelBatch(ids, now) => SqlCancelBatch(t, ids, now)
    case RequeueStale(timeout, now) => SqlRequeueStale(t, timeout, now)
    case Prune(before, states) => SqlPrune(t, before, states)
  }

  // ---------------------------------------------------------------- what a caller sees

  /** Claimed rows are a multiset: an UPDATE with RETURNING does not promise an order. */
  datatype Outcome = Accepted(ok: bool) | Took(rows: multiset<Row>) | Affected(n: nat)

  /** The rows a claim has started, in claiming order. */
  ghost function SqlStarted(t: Table, q: string, node: string, max: int, now: Time): seq<Row> {
    var picked := SqlPicked(t, q, max, now);
    seq(|picked|, k requires 0 <= k < |picked| => View(SqlClaimRow(t[picked[k]], node, now)))
  }

  /** A single Retry or Cancel reports a row it could not touch; the batch forms always report success. */
  ghost function SqlOutcome(t: Table, op: Op): Outcome {
    match op
    case Enqueue(rows) => Accepted(!SqlClashes(t, rows))
    case Claim(q, node, max, now) => Took(multiset(SqlStarted(t, q, node, max, now)))
    case Complete(id, _, _) => Accepted(id in t && t[id].state.Running?)
    case Fail(id, _, _) => Accepted(id in t && CanFail(t[id]))
    case ScheduleRetry(id, _, _, _) => Accepted(id in t && t[id].state.Running?)
    case Retry(id, _) => Accepted(id in t && CanRetry(t[id]))
    case RetryBatch(_, _) => Accepted(true)
    case Cancel(id, _) => Accepted(id in t && CanCancel(t[id]))
    case CancelBatch(_, _) => Accepted(true)
    case RequeueStale(timeout, now) => Affected(|SqlStale(t, now - timeout)|)
    case Prune(before, states) => Affected(if states == {} then 0 else |SqlPrunable(t, before, states)|)
  }

  /**
   The rows of a table as `SELECT ... WHERE id IN (ids) ORDER BY priority DESC, scheduled_at ASC, id ASC` lists
   them.
   */
  ghost function Reselected(t: Table, ids: set<JobId>): seq<JobId>
    requires ids <= t.Keys
  {
    var ranks := map i | i in ids :: Rank(t[i].spec.priority, t[i].scheduledAt, i);
    First(ranks, |ids|)
  }

  /**
   The columns on which the two drivers are compared. Left out are started_at and attempted_by, which they maintain
   differently, and node_id and attempted_at of rows that are not running.
   */
  function View(r: Row): Row {
    r.(startedAt := None,
       attemptedBy := [],
       nodeId := if r.state.Running? then r.nodeId else "",
       attemptedAt := if r.state.Running? then r.attemptedAt else None)
  }
}
